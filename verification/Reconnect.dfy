/**
 Concurrent failover. Any number of `reconnect` calls interleave at the granularity of single
 loads, stores and lock operations; the generation counter, checked under the write lock,
 decides which call commits its new connection.
 */
module Reconnect {
  import opened Common
  import opened Failover

  /** A live connection; `serial` tells two connections to the same endpoint apart. */
  datatype Connection = Connection(endpoint: nat, serial: nat)

  datatype Outcome = Committed | Skipped | Failed

  /** Where a call stands: the next operation it will perform. */
  datatype Pc =
    | LoadingIndex
    | Connecting
    | Acquiring
    | Checking
    | WritingClient
    | StoringIndex
    | BumpingGeneration
    | Releasing(outcome: Outcome)
    | Returned(outcome: Outcome)

  /**
   A call's local variables; `refused` endpoints were asked before the one that accepted. The last
   three record the shared counters when the call began.
   */
  datatype Call = Call(
    pc: Pc, generationBefore: nat, current: nat, candidate: Connection, refused: nat,
    replaced: nat, publishedAtStart: nat, writtenAtStart: nat)

  /** One successful failover: who, from which generation, which index it replaced, from where and how far it searched. */
  datatype Commit = Commit(caller: nat, generation: nat, replaced: nat, searchedFrom: nat, refused: nat, installed: nat)

  /**
   Shared state of the cloned clients, with three history variables: the commits so far, how
   often the client was overwritten, and how many of these overwrites readers can see.
   */
  datatype State = State(
    generation: nat, index: nat, client: Connection, writer: Option<nat>, calls: map<nat, Call>,
    commits: seq<Commit>, written: nat, published: nat)

  datatype Step =
    | Begin(p: nat)
    | LoadIndex(p: nat)
    | Connect(p: nat, serial: nat, refused: nat)
    | FailToConnect(p: nat)
    | Acquire(p: nat)
    | Check(p: nat)
    | WriteClient(p: nat)
    | StoreIndex(p: nat)
    | BumpGeneration(p: nat)
    | Release(p: nat)

  predicate At(s: State, p: nat, pc: Pc) {
    p in s.calls && s.calls[p].pc == pc
  }

  predicate Enabled(n: nat, s: State, step: Step)
  {
    match step
    case Begin(p) => p !in s.calls
    case LoadIndex(p) => At(s, p, LoadingIndex)
    case Connect(p, _, refused) => At(s, p, Connecting) && refused < n
    case FailToConnect(p) => At(s, p, Connecting)
    case Acquire(p) => At(s, p, Acquiring) && s.writer.None?
    case Check(p) => At(s, p, Checking)
    case WriteClient(p) => At(s, p, WritingClient)
    case StoreIndex(p) => At(s, p, StoringIndex)
    case BumpGeneration(p) => At(s, p, BumpingGeneration)
    case Release(p) => p in s.calls && s.calls[p].pc.Releasing?
  }

  function Goto(s: State, p: nat, pc: Pc): State
    requires p in s.calls
  {
    s.(calls := s.calls[p := s.calls[p].(pc := pc)])
  }

  function Apply(n: nat, s: State, step: Step): State
    requires n > 0 && Enabled(n, s, step)
  {
    match step
    case Begin(p) =>
      s.(calls := s.calls[p := Call(LoadingIndex, s.generation, 0, s.client, 0, 0, s.published, s.written)])
    case LoadIndex(p) =>
      s.(calls := s.calls[p := s.calls[p].(pc := Connecting, current := s.index)])
    case Connect(p, serial, refused) =>
      var candidate := Connection(Endpoint(n, Successor(s.calls[p].current, n), refused), serial);
      s.(calls := s.calls[p := s.calls[p].(pc := Acquiring, candidate := candidate, refused := refused)])
    case FailToConnect(p) => Goto(s, p, Returned(Failed))
    case Acquire(p) => Goto(s, p, Checking).(writer := Some(p))
    case Check(p) =>
      Goto(s, p, if s.generation != s.calls[p].generationBefore then Releasing(Skipped) else WritingClient)
    case WriteClient(p) =>
      Goto(s, p, StoringIndex).(client := s.calls[p].candidate, written := s.written + 1)
    case StoreIndex(p) =>
      s.(calls := s.calls[p := s.calls[p].(pc := BumpingGeneration, replaced := s.index)],
         index := s.calls[p].candidate.endpoint)
    case BumpGeneration(p) =>
      var c := s.calls[p];
      Goto(s, p, Releasing(Committed)).(
      generation := s.generation + 1,
      commits := s.commits + [Commit(p, c.generationBefore, c.replaced, Successor(c.current, n), c.refused, c.candidate.endpoint)])
    case Release(p) =>
      var outcome := s.calls[p].pc.outcome;
      Goto(s, p, Returned(outcome)).(
      writer := None,
      published := if outcome == Committed then s.published + 1 else s.published)
  }

  predicate Initial(n: nat, s: State) {
    && s.index < n && s.client.endpoint == s.index
    && s.generation == 0 && s.writer.None? && s.calls == map[] && s.commits == []
    && s.written == 0 && s.published == 0
  }

  ghost predicate Next(n: nat, s: State, t: State)
    requires n > 0
  {
    exists step :: Enabled(n, s, step) && t == Apply(n, s, step)
  }

  /** A run: any finite interleaving of any number of calls. */
  ghost predicate Run(n: nat, run: seq<State>)
    requires n > 0
  {
    && run != [] && Initial(n, run[0])
    && forall i :: 0 <= i < |run| - 1 ==> Next(n, run[i], run[i + 1])
  }

  // ---- the inductive invariant ----

  predicate InCriticalSection(pc: Pc) {
    pc.Checking? || pc.WritingClient? || pc.StoringIndex? || pc.BumpingGeneration? || pc.Releasing?
  }

  /** Exactly the lock holder is between acquiring and releasing. */
  predicate LockInv(s: State) {
    && (s.writer.Some? ==> s.writer.value in s.calls && InCriticalSection(s.calls[s.writer.value].pc))
    && forall p :: p in s.calls && InCriticalSection(s.calls[p].pc) ==> s.writer == Some(p)
  }

  /** Client, index and counters agree except between a committing call's own stores. */
  predicate SharedInv(n: nat, s: State) {
    && s.index < n
    && s.generation == |s.commits|
    && var pc := if s.writer.Some? && s.writer.value in s.calls then s.calls[s.writer.value].pc else LoadingIndex;
    && s.written == s.generation + (if pc.StoringIndex? || pc.BumpingGeneration? then 1 else 0)
    && s.published == s.generation - (if pc == Releasing(Committed) then 1 else 0)
    && (!pc.StoringIndex? ==> s.client.endpoint == s.index)
  }

  /** Some call has stored its index but not yet bumped the generation. */
  predicate HalfCommitted(s: State) {
    s.writer.Some? && s.writer.value in s.calls && s.calls[s.writer.value].pc.BumpingGeneration?
  }

  /** The candidate is the endpoint the search reached after the refusals. */
  predicate Searched(n: nat, c: Call)
    requires n > 0
  {
    c.refused < n && c.candidate.endpoint == Endpoint(n, Successor(c.current, n), c.refused)
  }

  /**
   A call whose captured generation is still current also holds the current index, unless a
   half-committed call is about to make that generation stale.
   */
  predicate CallInv(n: nat, s: State, p: nat)
    requires n > 0 && p in s.calls
  {
    var c := s.calls[p];
    && c.publishedAtStart <= c.generationBefore <= s.generation
    && (c.pc == LoadingIndex || HalfCommitted(s) || c.generationBefore < s.generation || c.current == s.index)
    && (InCriticalSection(c.pc) || c.pc.Acquiring? ==> Searched(n, c))
    && (match c.pc
        case WritingClient => c.generationBefore == s.generation
        case StoringIndex => c.generationBefore == s.generation && s.client == c.candidate
        case BumpingGeneration =>
          && c.generationBefore == s.generation && s.client == c.candidate
          && s.index == c.candidate.endpoint && c.replaced == c.current == Latest(s)
        case Releasing(Committed) => c.generationBefore < s.generation
        case Releasing(Skipped) => c.generationBefore < s.generation
        case Releasing(Failed) => false
        case Returned(outcome) => outcome != Failed ==> c.publishedAtStart < s.published && c.generationBefore < s.generation
        case _ => true)
    && c.writtenAtStart <= c.generationBefore + 1
  }

  /** The index installed by the last commit, or none before the first. */
  function Latest(s: State): nat {
    if HalfCommitted(s) then s.calls[s.writer.value].replaced else s.index
  }

  /**
   Commit `k` was made from generation `k`, replaced what commit `k - 1` installed, and installed
   the endpoint its search reached from the successor of that.
   */
  predicate CommitsChain(n: nat, start: nat, commits: seq<Commit>)
    requires n > 0
  {
    forall k :: 0 <= k < |commits| ==>
      && commits[k].generation == k
      && commits[k].replaced == Installed(start, commits, k)
      && commits[k].searchedFrom == Successor(commits[k].replaced, n)
      && commits[k].refused < n
      && commits[k].installed == Endpoint(n, commits[k].searchedFrom, commits[k].refused)
  }

  /** The endpoint in use after the first `k` commits. */
  function Installed(start: nat, commits: seq<Commit>, k: nat): nat
    requires k <= |commits|
  {
    if k == 0 then start else commits[k - 1].installed
  }

  predicate Inv(n: nat, start: nat, s: State)
    requires n > 0
  {
    && LockInv(s)
    && SharedInv(n, s)
    && (forall p :: p in s.calls ==> CallInv(n, s, p))
    && CommitsChain(n, start, s.commits)
    && Latest(s) == Installed(start, s.commits, |s.commits|)
  }

  lemma {:induction false} StepKeepsLock(n: nat, s: State, step: Step)
    requires n > 0 && LockInv(s) && Enabled(n, s, step)
    ensures LockInv(Apply(n, s, step))
  {
  }

  /** The call taking the step is the lock holder, if the step needs the lock. */
  lemma {:induction false} StepperHoldsLock(n: nat, s: State, step: Step)
    requires n > 0 && LockInv(s) && Enabled(n, s, step)
    ensures step.Check? || step.WriteClient? || step.StoreIndex? || step.BumpGeneration? || step.Release?
            ==> s.writer == Some(step.p)
    ensures step.LoadIndex? || step.Connect? || step.FailToConnect? || step.Acquire? || step.Begin?
            ==> s.writer != Some(step.p)
  {
  }

  lemma {:induction false} StepKeepsShared(n: nat, s: State, step: Step)
    requires n > 0 && Enabled(n, s, step) && LockInv(s) && SharedInv(n, s)
    requires step.p in s.calls ==> CallInv(n, s, step.p)
    ensures SharedInv(n, Apply(n, s, step))
  {
    StepperHoldsLock(n, s, step);
  }

  lemma {:induction false} StepKeepsOwnCall(n: nat, start: nat, s: State, step: Step)
    requires n > 0 && Inv(n, start, s) && Enabled(n, s, step)
    ensures CallInv(n, Apply(n, s, step), step.p)
  {
    StepperHoldsLock(n, s, step);
    assert step.p in s.calls ==> CallInv(n, s, step.p);
  }

  lemma {:induction false} StepKeepsOtherCall(n: nat, start: nat, s: State, step: Step, p: nat)
    requires n > 0 && Inv(n, start, s) && Enabled(n, s, step)
    requires p in s.calls && p != step.p
    ensures CallInv(n, Apply(n, s, step), p)
  {
    StepperHoldsLock(n, s, step);
    assert step.p in s.calls ==> CallInv(n, s, step.p);
    assert CallInv(n, s, p);
    assert InCriticalSection(s.calls[p].pc) ==> s.writer == Some(p);
  }

  lemma {:induction false} ChainExtends(n: nat, start: nat, commits: seq<Commit>, c: Commit)
    requires n > 0 && CommitsChain(n, start, commits)
    requires c.generation == |commits| && c.replaced == Installed(start, commits, |commits|)
    requires c.searchedFrom == Successor(c.replaced, n)
    requires c.refused < n && c.installed == Endpoint(n, c.searchedFrom, c.refused)
    ensures CommitsChain(n, start, commits + [c])
  {
    var all := commits + [c];
    forall k | 0 <= k < |all|
      ensures all[k].generation == k && all[k].replaced == Installed(start, all, k)
      ensures all[k].searchedFrom == Successor(all[k].replaced, n)
      ensures all[k].refused < n && all[k].installed == Endpoint(n, all[k].searchedFrom, all[k].refused)
    {
      assert Installed(start, all, k) == Installed(start, commits, k);
    }
  }

  lemma {:induction false} StepKeepsLatest(n: nat, start: nat, s: State, step: Step)
    requires n > 0 && Inv(n, start, s) && Enabled(n, s, step) && !step.BumpGeneration?
    ensures Apply(n, s, step).commits == s.commits && Latest(Apply(n, s, step)) == Latest(s)
  {
    StepperHoldsLock(n, s, step);
    assert step.p in s.calls ==> CallInv(n, s, step.p);
  }

  lemma {:induction false} StepKeepsCommits(n: nat, start: nat, s: State, step: Step)
    requires n > 0 && Inv(n, start, s) && Enabled(n, s, step)
    ensures var t := Apply(n, s, step);
            CommitsChain(n, start, t.commits) && Latest(t) == Installed(start, t.commits, |t.commits|)
  {
    if step.BumpGeneration? {
      StepperHoldsLock(n, s, step);
      var t := Apply(n, s, step);
      assert CallInv(n, s, step.p);
      ChainExtends(n, start, s.commits, t.commits[|s.commits|]);
      assert !HalfCommitted(t);
    } else {
      StepKeepsLatest(n, start, s, step);
    }
  }

  lemma {:induction false} StepKeepsInv(n: nat, start: nat, s: State, step: Step)
    requires n > 0 && Inv(n, start, s) && Enabled(n, s, step)
    ensures Inv(n, start, Apply(n, s, step))
  {
    StepKeepsLock(n, s, step);
    StepKeepsShared(n, s, step);
    StepKeepsCommits(n, start, s, step);
    forall p | p in Apply(n, s, step).calls ensures CallInv(n, Apply(n, s, step), p) {
      if p == step.p {
        StepKeepsOwnCall(n, start, s, step);
      } else {
        StepKeepsOtherCall(n, start, s, step, p);
      }
    }
  }

  lemma {:induction false} RunKeepsInv(n: nat, run: seq<State>, i: nat)
    requires n > 0 && Run(n, run) && i < |run|
    ensures Inv(n, run[0].index, run[i])
  {
    if i > 0 {
      RunKeepsInv(n, run, i - 1);
      assert Next(n, run[i - 1], run[i]);
      var step :| Enabled(n, run[i - 1], step) && run[i] == Apply(n, run[i - 1], step);
      StepKeepsInv(n, run[0].index, run[i - 1], step);
    }
  }

  // ---- what every run guarantees ----

  /**
   In every reachable state: the generation counts the commits; commit `k` was made by a call
   that captured generation `k`, so no captured generation commits twice; each commit replaced
   exactly what the previous one installed and searched from the successor of that index.
   */
  lemma {:induction false} OneCommitPerGeneration(n: nat, run: seq<State>, i: nat)
    requires n > 0 && Run(n, run) && i < |run|
    ensures run[i].generation == |run[i].commits|
    ensures CommitsChain(n, run[0].index, run[i].commits)
    ensures forall j, k :: 0 <= j < k < |run[i].commits| ==>
              run[i].commits[j].generation != run[i].commits[k].generation
  {
    RunKeepsInv(n, run, i);
  }

  /** Whenever no writer holds the lock, readers find the connection the index names. */
  lemma {:induction false} ReadersSeeTheIndexedEndpoint(n: nat, run: seq<State>, i: nat)
    requires n > 0 && Run(n, run) && i < |run| && run[i].writer.None?
    ensures run[i].client.endpoint == run[i].index < n
    ensures run[i].index == Installed(run[0].index, run[i].commits, |run[i].commits|)
    ensures run[i].published == run[i].written == run[i].generation
  {
    RunKeepsInv(n, run, i);
  }

  /**
   A call that returned without error saw a newer connection become visible to readers after it
   began, whether it installed that connection itself or found another call's. It was also
   written after the call began, unless a writer was already between its two stores then.
   */
  lemma {:induction false} OkMeansNewConnection(n: nat, run: seq<State>, i: nat, p: nat)
    requires n > 0 && Run(n, run) && i < |run| && p in run[i].calls
    requires run[i].calls[p].pc in {Returned(Committed), Returned(Skipped)}
    ensures run[i].calls[p].publishedAtStart < run[i].published
    ensures run[i].calls[p].writtenAtStart <= run[i].calls[p].generationBefore
            ==> run[i].calls[p].writtenAtStart < run[i].written
  {
    RunKeepsInv(n, run, i);
    assert CallInv(n, run[i], p);
  }

  /** No two calls are ever inside the critical section together. */
  lemma {:induction false} MutualExclusion(n: nat, run: seq<State>, i: nat, p: nat, q: nat)
    requires n > 0 && Run(n, run) && i < |run| && p in run[i].calls && q in run[i].calls
    requires InCriticalSection(run[i].calls[p].pc) && InCriticalSection(run[i].calls[q].pc)
    ensures p == q
  {
    RunKeepsInv(n, run, i);
    assert run[i].writer == Some(p) && run[i].writer == Some(q);
  }

  /** The state at the end of some run. */
  ghost predicate Reachable(n: nat, s: State)
    requires n > 0
  {
    exists run: seq<State> :: Run(n, run) && run[|run| - 1] == s
  }

  lemma {:induction false} StepReaches(n: nat, s: State, step: Step) returns (t: State)
    requires n > 0 && Reachable(n, s) && Enabled(n, s, step)
    ensures Reachable(n, t) && t == Apply(n, s, step)
  {
    t := Apply(n, s, step);
    var run: seq<State> :| Run(n, run) && run[|run| - 1] == s;
    assert Next(n, s, t);
    assert Run(n, run + [t]);
  }

  // ---- whether something was written since a call began ----

  /** Any finite continuation from some state. */
  ghost predicate Path(n: nat, path: seq<State>)
    requires n > 0
  {
    path != [] && forall i :: 0 <= i < |path| - 1 ==> Next(n, path[i], path[i + 1])
  }

  lemma {:induction false} PathStep(n: nat, path: seq<State>, step: Step) returns (longer: seq<State>, t: State)
    requires n > 0 && Path(n, path) && Enabled(n, path[|path| - 1], step)
    ensures Path(n, longer) && longer[0] == path[0] && longer[|longer| - 1] == t == Apply(n, path[|path| - 1], step)
  {
    t := Apply(n, path[|path| - 1], step);
    longer := path + [t];
    assert Next(n, path[|path| - 1], t);
  }

  lemma {:induction false} StepKeepsStart(n: nat, s: State, step: Step, p: nat)
    requires n > 0 && Enabled(n, s, step) && p in s.calls
    ensures var t := Apply(n, s, step); p in t.calls && t.calls[p].generationBefore == s.calls[p].generationBefore
  {
  }

  /** A continuation of a reachable state stays within the invariant and keeps what a call captured. */
  lemma {:induction false} PathKeeps(n: nat, start: nat, path: seq<State>, p: nat)
    requires n > 0 && Path(n, path) && Inv(n, start, path[0]) && p in path[0].calls
    ensures var t := path[|path| - 1];
            Inv(n, start, t) && p in t.calls && t.calls[p].generationBefore == path[0].calls[p].generationBefore
  {
    if |path| > 1 {
      var k := |path| - 2;
      assert Path(n, path[..k + 1]);
      PathKeeps(n, start, path[..k + 1], p);
      assert Next(n, path[k], path[k + 1]);
      var step :| Enabled(n, path[k], step) && path[k + 1] == Apply(n, path[k], step);
      StepKeepsInv(n, start, path[k], step);
      StepKeepsStart(n, path[k], step, p);
    }
  }

  /** The lock holder has overwritten the client but not yet bumped the generation. */
  predicate BetweenStores(s: State) {
    && s.writer.Some? && s.writer.value in s.calls
    && (s.calls[s.writer.value].pc.StoringIndex? || s.calls[s.writer.value].pc.BumpingGeneration?)
  }

  /** A call that begins in `s` can return `Ok` with nothing written since. */
  ghost predicate OkUnwritten(n: nat, s: State, p: nat)
    requires n > 0 && p !in s.calls
  {
    exists path: seq<State> ::
      && Path(n, path) && path[0] == Apply(n, s, Begin(p))
      && var t := path[|path| - 1];
      && p in t.calls && t.calls[p].pc in {Returned(Committed), Returned(Skipped)} && t.written == s.written
  }

  lemma {:induction false} OkNeedsWrite(n: nat, start: nat, s: State, p: nat)
    requires n > 0 && p !in s.calls && Inv(n, start, s) && !BetweenStores(s)
    ensures !OkUnwritten(n, s, p)
  {
    forall path: seq<State> | Path(n, path) && path[0] == Apply(n, s, Begin(p))
      ensures var t := path[|path| - 1];
              p in t.calls && t.calls[p].pc in {Returned(Committed), Returned(Skipped)} ==> t.written > s.written
    {
      StepKeepsInv(n, start, s, Begin(p));
      PathKeeps(n, start, path, p);
      assert CallInv(n, path[|path| - 1], p);
    }
  }

  /** The writer stores its index, if it has not, bumps the generation and releases the lock. */
  lemma {:induction false} WriterFinishes(n: nat, path: seq<State>, q: nat) returns (longer: seq<State>, t: State)
    requires n > 0 && Path(n, path)
    requires var s := path[|path| - 1]; s.writer == Some(q) && BetweenStores(s)
    ensures var s := path[|path| - 1];
            && Path(n, longer) && longer[0] == path[0] && longer[|longer| - 1] == t
            && t.writer.None? && t.generation == s.generation + 1 && t.written == s.written
            && (forall p :: p in s.calls && p != q ==> p in t.calls && t.calls[p] == s.calls[p])
  {
    longer, t := path, path[|path| - 1];
    if t.calls[q].pc.StoringIndex? {
      longer, t := PathStep(n, longer, StoreIndex(q));
    }
    longer, t := PathStep(n, longer, BumpGeneration(q));
    longer, t := PathStep(n, longer, Release(q));
  }

  lemma {:induction false} SkipsUnwritten(n: nat, s: State, p: nat)
    requires n > 0 && p !in s.calls && BetweenStores(s)
    ensures OkUnwritten(n, s, p)
  {
    var path, t := [Apply(n, s, Begin(p))], Apply(n, s, Begin(p));
    path, t := WriterFinishes(n, path, s.writer.value);
    assert t.calls[p].pc == LoadingIndex && t.calls[p].generationBefore == s.generation;
    path, t := PathStep(n, path, LoadIndex(p));
    path, t := PathStep(n, path, Connect(p, 0, 0));
    path, t := PathStep(n, path, Acquire(p));
    path, t := PathStep(n, path, Check(p));
    path, t := PathStep(n, path, Release(p));
    assert t.calls[p].pc == Returned(Skipped);
  }

  /**
   From every reachable state and for every new call: it can return `Ok` although nothing is
   written after it began if and only if, when it begins, a writer is between its client store
   and its generation bump.
   */
  lemma {:induction false} OkWithoutLaterWriteIff(n: nat, s: State, p: nat)
    requires n > 0 && Reachable(n, s) && p !in s.calls
    ensures OkUnwritten(n, s, p) <==> BetweenStores(s)
  {
    if BetweenStores(s) {
      SkipsUnwritten(n, s, p);
    } else {
      var run: seq<State> :| Run(n, run) && run[|run| - 1] == s;
      RunKeepsInv(n, run, |run| - 1);
      OkNeedsWrite(n, run[0].index, s, p);
    }
  }

  /** Call 0 holds the lock and nobody has committed. */
  lemma {:induction false} AtTheLock() returns (s: State)
    ensures Reachable(1, s)
    ensures s.calls.Keys == {0} && s.calls[0].pc == Checking && s.calls[0].generationBefore == s.generation
  {
    s := State(0, 0, Connection(0, 0), None, map[], [], 0, 0);
    assert Run(1, [s]);
    s := StepReaches(1, s, Begin(0));
    s := StepReaches(1, s, LoadIndex(0));
    s := StepReaches(1, s, Connect(0, 1, 0));
    s := StepReaches(1, s, Acquire(0));
  }

  /** Call 0 has overwritten the client but not yet stored its index. */
  lemma {:induction false} MidCommit() returns (s: State)
    ensures Reachable(1, s) && s.calls.Keys == {0} && BetweenStores(s)
  {
    s := AtTheLock();
    s := StepReaches(1, s, Check(0));
    s := StepReaches(1, s, WriteClient(0));
    var run: seq<State> :| Run(1, run) && run[|run| - 1] == s;
    RunKeepsInv(1, run, |run| - 1);
  }

  /** Such states are reachable, so the exception is real. */
  lemma {:induction false} OkWithoutLaterWrite() returns (s: State)
    ensures Reachable(1, s) && 1 !in s.calls && OkUnwritten(1, s, 1)
  {
    s := MidCommit();
    OkWithoutLaterWriteIff(1, s, 1);
  }

  // ---- which endpoint a failover installs ----

  /** Searching from the successor comes back to the start only after everyone else. */
  lemma {:induction false} ComesBackLast(n: nat, r: nat, i: nat)
    requires r < n && i < n
    ensures Endpoint(n, Successor(r, n), i) == r <==> i == n - 1
  {
    if n == 1 {
      assert r == 0 && i == 0;
    } else {
      var next := Successor(r, n);
      assert next == if r + 1 < n then r + 1 else 0 by {
        ModOf(r + 1, if r + 1 < n then 0 else 1, if r + 1 < n then r + 1 else 0, n);
      }
      ModOf(next + i, if next + i < n then 0 else 1, if next + i < n then next + i else next + i - n, n);
    }
  }

  /**
   In every run each commit installs the first endpoint to accept in cyclic order from the
   successor of the one it replaces, and the replaced endpoint itself if and only if every other
   one refused.
   */
  lemma {:induction false} FailoverReturnsOnlyLast(n: nat, run: seq<State>, i: nat, k: nat)
    requires n > 0 && Run(n, run) && i < |run| && k < |run[i].commits|
    ensures var c := run[i].commits[k];
            && c.replaced == Installed(run[0].index, run[i].commits, k) < n
            && c.refused < n && c.installed == Endpoint(n, Successor(c.replaced, n), c.refused)
            && (c.installed == c.replaced <==> c.refused == n - 1)
  {
    RunKeepsInv(n, run, i);
    RunKeepsInv(n, run, 0);
    var commits := run[i].commits;
    assert k > 0 ==> commits[k - 1].installed == Endpoint(n, commits[k - 1].searchedFrom, commits[k - 1].refused);
    ComesBackLast(n, commits[k].replaced, commits[k].refused);
  }

  /** From a state in which no writer holds the lock: a new call connects, takes the lock and finds itself first. */
  ghost function Prepared(n: nat, s: State, p: nat, serial: nat, refused: nat): State
    requires n > 0 && s.writer.None? && p !in s.calls && refused < n
  {
    var s1 := Apply(n, s, Begin(p));
    var s2 := Apply(n, s1, LoadIndex(p));
    var s3 := Apply(n, s2, Connect(p, serial, refused));
    var s4 := Apply(n, s3, Acquire(p));
    Apply(n, s4, Check(p))
  }

  lemma {:induction false} PreparedState(n: nat, s: State, p: nat, serial: nat, refused: nat)
    requires n > 0 && s.writer.None? && p !in s.calls && refused < n
    ensures var candidate := Connection(Endpoint(n, Successor(s.index, n), refused), serial);
            var c := Call(WritingClient, s.generation, s.index, candidate, refused, 0, s.published, s.written);
            Prepared(n, s, p, serial, refused) == s.(writer := Some(p), calls := s.calls[p := c])
  {
  }

  /** The same call goes on to commit, meeting no other call. */
  ghost function Alone(n: nat, s: State, p: nat, serial: nat, refused: nat): State
    requires n > 0 && s.writer.None? && p !in s.calls && refused < n
  {
    PreparedState(n, s, p, serial, refused);
    var s6 := Apply(n, Prepared(n, s, p, serial, refused), WriteClient(p));
    var s7 := Apply(n, s6, StoreIndex(p));
    var s8 := Apply(n, s7, BumpGeneration(p));
    Apply(n, s8, Release(p))
  }

  /** It installs its connection and index, raises the generation once, frees the lock and leaves other calls alone. */
  lemma {:induction false} UndisturbedCallCommits(n: nat, s: State, p: nat, serial: nat, refused: nat)
    requires n > 0 && s.writer.None? && p !in s.calls && refused < n
    ensures var t := Alone(n, s, p, serial, refused);
            var candidate := Connection(Endpoint(n, Successor(s.index, n), refused), serial);
            && At(t, p, Returned(Committed)) && t.writer.None?
            && t.client == candidate && t.index == candidate.endpoint
            && t.generation == s.generation + 1
            && t.commits == s.commits + [Commit(p, s.generation, s.index, Successor(s.index, n), refused, candidate.endpoint)]
            && t.calls.Keys == s.calls.Keys + {p} && (forall q :: q in s.calls ==> t.calls[q] == s.calls[q])
  {
    PreparedState(n, s, p, serial, refused);
  }
}
