/**
 Completing listed voters with their nominations: batches of 20 run as concurrent tasks, at
 most 10 in flight, awaited in order. The reference is a plain left-to-right selection over
 the voter list that knows nothing of batches.
 */
module VoterFetch {
  import opened Common
  import opened VoterList

  const BATCH_SIZE: nat := 20
  const MAX_CONCURRENT_BATCHES: nat := 10
  const MAX_RETRIES: nat := 8

  /** A stored nomination; bytes that do not decode count as no targets. */
  datatype Nominations = Undecodable | Nominations(targets: seq<Account>, suppressed: bool)

  /** A stored ledger; one that does not decode or has no active stake is ignored. */
  datatype Ledger = Unreadable | WithActive(active: nat)

  /** The storage maps at one block. A `None` controller stands for an entry too short to hold an account. */
  datatype View = View(
    nominators: map<Account, Nominations>, bonded: map<Account, Option<Account>>, ledgers: map<Account, Ledger>)

  /** Errors whose text marks them as worth retrying are `Transient`. */
  datatype Error = MalformedController | Transient(code: nat) | Permanent(code: nat)

  datatype Looked = Looked(account: Account, stake: nat, targets: Option<seq<Account>>)

  // ---- one voter ----

  function StakeOf(view: View, controller: Account, score: nat): nat {
    if controller in view.ledgers && view.ledgers[controller].WithActive?
    then view.ledgers[controller].active % (U64_MAX + 1)
    else score
  }

  function TargetsOf(view: View, a: Account): Option<seq<Account>> {
    if a !in view.nominators then None else
      match view.nominators[a]
      case Undecodable => Some([])
      case Nominations(targets, suppressed) => if suppressed then Some([]) else Some(targets)
  }

  function Lookup(view: View, v: (Account, nat)): Result<Looked, Error> {
    var (a, score) := v;
    if a in view.bonded && view.bonded[a].None? then Err(MalformedController) else
      var controller := if a in view.bonded then view.bonded[a].value else a;
      Ok(Looked(a, StakeOf(view, controller, score), TargetsOf(view, a)))
  }

  /** Nominators with targets vote for them; accounts without nominations vote for themselves if they validate. */
  function Keep(validators: set<Account>, l: Looked): seq<Voter> {
    match l.targets
    case Some(targets) => if targets != [] then [Entry(l.account, Vote(l.stake, targets))] else []
    case None => if l.account in validators then [Entry(l.account, Vote(l.stake, [l.account]))] else []
  }

  // ---- the reference selection ----

  function Selected(view: View, validators: set<Account>, v: (Account, nat)): (kept: seq<Voter>)
    ensures |kept| <= 1 && forall k :: k in kept ==> k.account == v.0 && k.value.targets != []
  {
    match Lookup(view, v)
    case Ok(l) => Keep(validators, l)
    case Err(_) => []
  }

  function Sequential(view: View, validators: set<Account>, list: seq<(Account, nat)>): (kept: seq<Voter>)
    ensures |kept| <= |list|
  {
    if list == [] then [] else Selected(view, validators, list[0]) + Sequential(view, validators, list[1..])
  }

  lemma {:induction false} SequentialAppend(
    view: View, validators: set<Account>, a: seq<(Account, nat)>, b: seq<(Account, nat)>)
    ensures Sequential(view, validators, a + b) == Sequential(view, validators, a) + Sequential(view, validators, b)
  {
    if a == [] {
      assert a + b == b;
    } else {
      SequentialAppend(view, validators, a[1..], b);
      assert (a + b)[1..] == a[1..] + b;
      Associative(Selected(view, validators, a[0]), Sequential(view, validators, a[1..]),
                  Sequential(view, validators, b));
    }
  }

  // ---- what is selected ----

  /** Votes: nominates somebody without being suppressed, or does not nominate but validates. */
  ghost predicate Eligible(view: View, validators: set<Account>, a: Account) {
    && !(a in view.bonded && view.bonded[a].None?)
    && if a in view.nominators
       then exists targets :: view.nominators[a] == Nominations(targets, false) && targets != []
       else a in validators
  }

  /** The vote of a listed account: its nominations or itself, with the active stake of its controller's ledger if readable. */
  ghost predicate VotesAs(view: View, a: Account, score: nat, v: Voter) {
    && v.account == a && !(a in view.bonded && view.bonded[a].None?)
    && (a in view.nominators ==> view.nominators[a] == Nominations(v.value.targets, false))
    && (a !in view.nominators ==> v.value.targets == [a])
    && var controller := if a in view.bonded then view.bonded[a].value else a;
    && (controller in view.ledgers && view.ledgers[controller].WithActive? ==>
          v.value.stake == view.ledgers[controller].active % 0x1_0000_0000_0000_0000)
    && (controller !in view.ledgers || view.ledgers[controller].Unreadable? ==> v.value.stake == score)
  }

  lemma {:induction false} OneSelected(view: View, validators: set<Account>, v: (Account, nat))
    ensures Eligible(view, validators, v.0) <==> Selected(view, validators, v) != []
    ensures forall k :: k in Selected(view, validators, v) ==> VotesAs(view, v.0, v.1, k)
  {
  }

  /** `kept[k]` is the vote of `list[at[k]]`; those listed in `at` are the eligible ones, in order. */
  ghost predicate Selects(view: View, validators: set<Account>, list: seq<(Account, nat)>, kept: seq<Voter>, at: seq<nat>) {
    && |at| == |kept| && (forall i, j :: 0 <= i < j < |at| ==> at[i] < at[j])
    && (forall j: nat :: j in at <==> j < |list| && Eligible(view, validators, list[j].0))
    && forall k :: 0 <= k < |at| ==> at[k] < |list| && VotesAs(view, list[at[k]].0, list[at[k]].1, kept[k])
  }

  lemma {:induction false} SelectsSkip(
    view: View, validators: set<Account>, list: seq<(Account, nat)>, v: (Account, nat), kept: seq<Voter>, at: seq<nat>)
    requires Selects(view, validators, list, kept, at) && !Eligible(view, validators, v.0)
    ensures Selects(view, validators, list + [v], kept, at)
  {
  }

  lemma {:induction false} SelectsAdd(
    view: View, validators: set<Account>, list: seq<(Account, nat)>, v: (Account, nat), kept: seq<Voter>, at: seq<nat>, vote: Voter)
    requires Selects(view, validators, list, kept, at) && Eligible(view, validators, v.0) && VotesAs(view, v.0, v.1, vote)
    ensures Selects(view, validators, list + [v], kept + [vote], at + [|list|])
  {
    var more, longer := at + [|list|], list + [v];
    forall j: nat ensures j in more <==> j < |longer| && Eligible(view, validators, longer[j].0) {
      assert j in more <==> j in at || j == |list|;
    }
  }

  lemma {:induction false} SelectsStep(
    view: View, validators: set<Account>, list: seq<(Account, nat)>, v: (Account, nat), kept: seq<Voter>, at: seq<nat>)
    returns (more: seq<nat>)
    requires Selects(view, validators, list, kept, at)
    ensures Selects(view, validators, list + [v], kept + Selected(view, validators, v), more)
  {
    OneSelected(view, validators, v);
    var own := Selected(view, validators, v);
    if own == [] {
      assert kept + own == kept;
      SelectsSkip(view, validators, list, v, kept, at);
      more := at;
    } else {
      assert own == [own[0]] && own[0] in own;
      SelectsAdd(view, validators, list, v, kept, at, own[0]);
      more := at + [|list|];
    }
  }

  /**
   The reference selection keeps exactly the eligible accounts of the list, in its order, each
   with its own targets and the stake of its ledger.
   */
  lemma {:induction false} SelectionIsExact(view: View, validators: set<Account>, list: seq<(Account, nat)>)
    returns (at: seq<nat>)
    ensures Selects(view, validators, list, Sequential(view, validators, list), at)
    decreases |list|
  {
    if list == [] {
      at := [];
    } else {
      var init, v := list[..|list| - 1], list[|list| - 1];
      at := SelectionIsExact(view, validators, init);
      at := SelectsStep(view, validators, init, v, Sequential(view, validators, init), at);
      assert list == init + [v];
      SequentialAppend(view, validators, init, [v]);
      var one: seq<(Account, nat)> := [v];
      assert one[1..] == [];
      assert Sequential(view, validators, one) == Selected(view, validators, v) + [];
    }
  }

  // ---- batches and tasks ----

  function Batches(list: seq<(Account, nat)>): nat {
    (|list| + BATCH_SIZE - 1) / BATCH_SIZE
  }

  function Start(list: seq<(Account, nat)>, b: nat): (i: nat)
    ensures i <= |list|
  {
    Min(BATCH_SIZE * b, |list|)
  }

  function Batch(list: seq<(Account, nat)>, b: nat): seq<(Account, nat)> {
    list[Start(list, b)..Start(list, b + 1)]
  }

  /** Results are consumed in order, so the first failing voter decides the error. */
  function LookupAll(view: View, batch: seq<(Account, nat)>): Result<seq<Looked>, Error> {
    if batch == [] then Ok([]) else
      match Lookup(view, batch[0])
      case Err(e) => Err(e)
      case Ok(l) =>
        match LookupAll(view, batch[1..])
        case Err(e) => Err(e)
        case Ok(rest) => Ok([l] + rest)
  }

  /** What the network does to attempt `k` of the task of batch `b`: nothing, or an error. */
  type Faults = (nat, nat) -> Option<Error>

  function Attempt(view: View, list: seq<(Account, nat)>, faults: Faults, b: nat, k: nat): Result<seq<Looked>, Error> {
    if faults(b, k).Some? then Err(faults(b, k).value) else LookupAll(view, Batch(list, b))
  }

  /** The outcome of a task from attempt `k` on. */
  function TaskFrom(view: View, list: seq<(Account, nat)>, faults: Faults, b: nat, k: nat): Result<seq<Looked>, Error>
    requires k <= MAX_RETRIES
    decreases MAX_RETRIES - k
  {
    var r := Attempt(view, list, faults, b, k);
    if r.Err? && r.error.Transient? && k < MAX_RETRIES then TaskFrom(view, list, faults, b, k + 1) else r
  }

  method RunTask(view: View, list: seq<(Account, nat)>, faults: Faults, b: nat)
    returns (r: Result<seq<Looked>, Error>, attempts: nat)
    ensures r == TaskFrom(view, list, faults, b, 0)
    ensures 1 <= attempts <= MAX_RETRIES + 1
    ensures forall k :: 0 <= k < attempts - 1 ==>
              Attempt(view, list, faults, b, k).Err? && Attempt(view, list, faults, b, k).error.Transient?
  {
    var k := 0;
    while true
      invariant k <= MAX_RETRIES
      invariant TaskFrom(view, list, faults, b, 0) == TaskFrom(view, list, faults, b, k)
      invariant forall j :: 0 <= j < k ==>
                  Attempt(view, list, faults, b, j).Err? && Attempt(view, list, faults, b, j).error.Transient?
      decreases MAX_RETRIES - k
    {
      r := Attempt(view, list, faults, b, k);
      if r.Ok? || !r.error.Transient? || k == MAX_RETRIES {
        return r, k + 1;
      }
      k := k + 1;
    }
  }

  /** A successful task delivers the lookups of its batch, whatever attempt produced them. */
  lemma {:induction false} TaskDelivers(view: View, list: seq<(Account, nat)>, faults: Faults, b: nat, k: nat)
    requires k <= MAX_RETRIES && TaskFrom(view, list, faults, b, k).Ok?
    ensures TaskFrom(view, list, faults, b, k) == LookupAll(view, Batch(list, b))
    decreases MAX_RETRIES - k
  {
    if Attempt(view, list, faults, b, k).Err? {
      TaskDelivers(view, list, faults, b, k + 1);
    }
  }

  /** The network lets attempt `k` through, after a transient error at every attempt before it. */
  ghost predicate Reached(faults: Faults, b: nat, k: nat) {
    k <= 8 && faults(b, k).None? && TransientBefore(faults, b, k)
  }

  ghost predicate TransientBefore(faults: Faults, b: nat, k: nat) {
    forall j :: 0 <= j < k ==> faults(b, j).Some? && faults(b, j).value.Transient?
  }

  /** The network ends the task at attempt `k`: with a permanent error, or with the ninth transient one. */
  ghost predicate GivesUp(faults: Faults, b: nat, k: nat, e: Error) {
    k <= 8 && faults(b, k) == Some(e) && TransientBefore(faults, b, k) && (e.Transient? ==> k == 8)
  }

  /** No listed account of the batch has a malformed controller. */
  ghost predicate Resolvable(view: View, batch: seq<(Account, nat)>) {
    forall i :: 0 <= i < |batch| ==> !(batch[i].0 in view.bonded && view.bonded[batch[i].0].None?)
  }

  lemma {:induction false} LookupsSucceed(view: View, batch: seq<(Account, nat)>)
    ensures LookupAll(view, batch).Ok? <==> Resolvable(view, batch)
    ensures LookupAll(view, batch).Err? ==> LookupAll(view, batch).error == MalformedController
  {
    if batch != [] {
      LookupsSucceed(view, batch[1..]);
      assert forall i :: 0 < i < |batch| ==> batch[i] == batch[1..][i - 1];
    }
  }

  lemma {:induction false} TaskFromOutcome(view: View, list: seq<(Account, nat)>, faults: Faults, b: nat, k: nat)
    requires k <= 8 && TransientBefore(faults, b, k)
    ensures var r := TaskFrom(view, list, faults, b, k);
            && (r.Ok? <==> (exists j: nat :: Reached(faults, b, j)) && Resolvable(view, Batch(list, b)))
            && (r.Err? ==> r.error == MalformedController || exists j: nat :: GivesUp(faults, b, j, r.error))
    decreases 8 - k
  {
    LookupsSucceed(view, Batch(list, b));
    var r := TaskFrom(view, list, faults, b, k);
    if faults(b, k).None? {
      assert Reached(faults, b, k);
    } else if faults(b, k).value.Transient? && k < 8 {
      TaskFromOutcome(view, list, faults, b, k + 1);
    } else {
      assert GivesUp(faults, b, k, faults(b, k).value);
      if j: nat :| Reached(faults, b, j) {
        assert j <= k;
      }
    }
  }

  /**
   A task succeeds exactly when one of its nine attempts gets through with only transient errors
   before it and every controller in its batch of twenty can be resolved; otherwise it reports the
   malformed controller, the first permanent error, or the ninth transient one.
   */
  lemma {:induction false} TaskOutcome(view: View, list: seq<(Account, nat)>, faults: Faults, b: nat)
    ensures var r := TaskFrom(view, list, faults, b, 0);
            var batch := list[Min(20 * b, |list|)..Min(20 * b + 20, |list|)];
            && (r.Ok? <==> (exists j: nat :: Reached(faults, b, j)) && Resolvable(view, batch))
            && (r.Err? ==> r.error == MalformedController || exists j: nat :: GivesUp(faults, b, j, r.error))
  {
    TaskFromOutcome(view, list, faults, b, 0);
  }

  function KeepAll(validators: set<Account>, looked: seq<Looked>): seq<Voter> {
    if looked == [] then [] else Keep(validators, looked[0]) + KeepAll(validators, looked[1..])
  }

  method AppendKept(validators: set<Account>, looked: seq<Looked>, data: seq<Voter>) returns (r: seq<Voter>)
    ensures r == data + KeepAll(validators, looked)
  {
    r := data;
    var i := 0;
    while i < |looked|
      invariant 0 <= i <= |looked|
      invariant r + KeepAll(validators, looked[i..]) == data + KeepAll(validators, looked)
    {
      assert looked[i..][1..] == looked[i + 1..];
      Associative(r, Keep(validators, looked[i]), KeepAll(validators, looked[i + 1..]));
      r := r + Keep(validators, looked[i]);
      i := i + 1;
    }
    assert looked[|looked|..] == [];
  }

  lemma {:induction false} KeepingIsSelecting(view: View, validators: set<Account>, batch: seq<(Account, nat)>)
    requires LookupAll(view, batch).Ok?
    ensures KeepAll(validators, LookupAll(view, batch).value) == Sequential(view, validators, batch)
  {
    if batch != [] {
      KeepingIsSelecting(view, validators, batch[1..]);
      var all := LookupAll(view, batch).value;
      assert all[1..] == LookupAll(view, batch[1..]).value;
    }
  }

  /** The voters selected by the first `b` batches. */
  function Done(view: View, validators: set<Account>, list: seq<(Account, nat)>, b: nat): seq<Voter> {
    Sequential(view, validators, list[..Start(list, b)])
  }

  lemma {:induction false} NextBatch(
    view: View, validators: set<Account>, list: seq<(Account, nat)>, faults: Faults, b: nat, looked: seq<Looked>)
    requires TaskFrom(view, list, faults, b, 0) == Ok(looked)
    ensures Done(view, validators, list, b + 1) == Done(view, validators, list, b) + KeepAll(validators, looked)
  {
    TaskDelivers(view, list, faults, b, 0);
    KeepingIsSelecting(view, validators, Batch(list, b));
    assert list[..Start(list, b + 1)] == list[..Start(list, b)] + Batch(list, b);
    SequentialAppend(view, validators, list[..Start(list, b)], Batch(list, b));
  }

  ghost predicate TasksOk(view: View, list: seq<(Account, nat)>, faults: Faults, b: nat) {
    forall i :: 0 <= i < b ==> TaskFrom(view, list, faults, i, 0).Ok?
  }

  // ---- the windowed pipeline ----

  /** The first `done` tasks succeeded and `data` holds what they selected. */
  ghost predicate Collected(
    view: View, validators: set<Account>, list: seq<(Account, nat)>, faults: Faults, done: nat, data: seq<Voter>)
  {
    TasksOk(view, list, faults, done) && data == Done(view, validators, list, done)
  }

  /** Await the task of batch `done` and append what it selects. */
  method Await(
    view: View, validators: set<Account>, list: seq<(Account, nat)>, faults: Faults, done: nat, data: seq<Voter>)
    returns (r: Result<seq<Voter>, Error>)
    requires Collected(view, validators, list, faults, done, data)
    ensures r.Ok? <==> TaskFrom(view, list, faults, done, 0).Ok?
    ensures r.Ok? ==> Collected(view, validators, list, faults, done + 1, r.value)
    ensures r.Err? ==> TaskFrom(view, list, faults, done, 0) == Err(r.error)
  {
    var looked, _ := RunTask(view, list, faults, done);
    if looked.Err? {
      return Err(looked.error);
    }
    NextBatch(view, validators, list, faults, done, looked.value);
    var more := AppendKept(validators, looked.value, data);
    r := Ok(more);
  }

  /** Await the handles left when every batch has been started. */
  method AwaitRest(view: View, validators: set<Account>, list: seq<(Account, nat)>, faults: Faults,
                   handles: seq<nat>, done: nat, data: seq<Voter>)
    returns (r: Result<seq<Voter>, Error>)
    requires done + |handles| == Batches(list)
    requires forall i :: 0 <= i < |handles| ==> handles[i] == done + i
    requires Collected(view, validators, list, faults, done, data)
    ensures r.Ok? ==> Collected(view, validators, list, faults, Batches(list), r.value)
    ensures r.Err? ==> exists b :: 0 <= b < Batches(list) && FailsFirst(view, list, faults, b, r.error)
  {
    var all := data;
    for i := 0 to |handles|
      invariant Collected(view, validators, list, faults, done + i, all)
    {
      r := Await(view, validators, list, faults, handles[i], all);
      if r.Err? {
        assert FailsFirst(view, list, faults, done + i, r.error);
        return;
      }
      all := r.value;
    }
    r := Ok(all);
  }

  /**
   The pipeline succeeds exactly when every task does, and then returns the reference selection
   cut to the limit; otherwise it fails with the error of the first failing batch.
   */
  method FetchVoters(
    view: View, validators: set<Account>, list: seq<(Account, nat)>, voterLimit: nat, faults: Faults)
    returns (r: Result<seq<Voter>, Error>)
    ensures r.Ok? <==> TasksOk(view, list, faults, Batches(list))
    ensures r.Ok? ==> r.value == Take(Sequential(view, validators, list), voterLimit)
    ensures r.Err? ==> exists b :: 0 <= b < Batches(list) && FailsFirst(view, list, faults, b, r.error)
  {
    var total := Batches(list);
    var data: seq<Voter> := [];
    var handles: seq<nat> := [];
    var done := 0;
    for b := 0 to total
      invariant |handles| < MAX_CONCURRENT_BATCHES && done + |handles| == b
      invariant forall i :: 0 <= i < |handles| ==> handles[i] == done + i
      invariant Collected(view, validators, list, faults, done, data)
    {
      handles := handles + [b];
      if |handles| >= MAX_CONCURRENT_BATCHES {
        var more := Await(view, validators, list, faults, handles[0], data);
        if more.Err? {
          assert FailsFirst(view, list, faults, done, more.error);
          return Err(more.error);
        }
        data, handles, done := more.value, handles[1..], done + 1;
      }
    }
    var rest := AwaitRest(view, validators, list, faults, handles, done, data);
    if rest.Err? {
      return Err(rest.error);
    }
    AllBatches(view, validators, list);
    r := Ok(Take(rest.value, voterLimit));
  }

  /** Batch `b` fails with `e` and every batch before it succeeds. */
  ghost predicate FailsFirst(view: View, list: seq<(Account, nat)>, faults: Faults, b: nat, e: Error) {
    TasksOk(view, list, faults, b) && TaskFrom(view, list, faults, b, 0) == Err(e)
  }

  lemma {:induction false} AllBatches(view: View, validators: set<Account>, list: seq<(Account, nat)>)
    ensures Done(view, validators, list, Batches(list)) == Sequential(view, validators, list)
  {
    assert Start(list, Batches(list)) == |list| && list[..|list|] == list;
  }

  // ---- the buffer of 100 extra voters ----

  function Ineligible(view: View, validators: set<Account>, list: seq<(Account, nat)>): nat {
    |list| - |Sequential(view, validators, list)|
  }

  /**
   Selecting from the first `voterLimit + 100` voters is as good as selecting from all of them
   exactly when these contain enough eligible voters, or nobody eligible is left behind. At
   most 100 ineligible voters among them always suffice.
   */
  lemma {:induction false} BufferSuffices(
    view: View, validators: set<Account>, whole: seq<(Account, nat)>, voterLimit: nat)
    ensures var seen := Take(whole, voterLimit + BUFFER);
            && (Take(Sequential(view, validators, seen), voterLimit) == Take(Sequential(view, validators, whole), voterLimit)
                <==> || |Sequential(view, validators, seen)| >= voterLimit
                     || Sequential(view, validators, whole[|seen|..]) == [])
            && (Ineligible(view, validators, seen) <= BUFFER ==>
                  Take(Sequential(view, validators, seen), voterLimit) == Take(Sequential(view, validators, whole), voterLimit))
  {
    var seen := Take(whole, voterLimit + BUFFER);
    var rest := whole[|seen|..];
    assert whole == seen + rest;
    SequentialAppend(view, validators, seen, rest);
    TakeAppend(Sequential(view, validators, seen), Sequential(view, validators, rest), voterLimit);
    if |seen| == |whole| {
      assert rest == [];
    }
  }

  /** Selection keeps accounts distinct: it never invents or repeats a listed voter. */
  lemma {:induction false} SelectionKeepsDistinct(
    view: View, validators: set<Account>, list: seq<(Account, nat)>, i: nat, j: nat)
    requires forall p, q :: 0 <= p < q < |list| ==> list[p].0 != list[q].0
    requires i < j < |Sequential(view, validators, list)|
    ensures Sequential(view, validators, list)[i].account != Sequential(view, validators, list)[j].account
  {
    var first, rest := Selected(view, validators, list[0]), Sequential(view, validators, list[1..]);
    if i < |first| {
      var p := SelectedIsListed(view, validators, list[1..], j - |first|);
      assert list[p + 1] == list[1..][p];
    } else {
      SelectionKeepsDistinct(view, validators, list[1..], i - |first|, j - |first|);
    }
  }

  lemma {:induction false} SelectedIsListed(
    view: View, validators: set<Account>, list: seq<(Account, nat)>, i: nat) returns (p: nat)
    requires i < |Sequential(view, validators, list)|
    ensures p < |list| && list[p].0 == Sequential(view, validators, list)[i].account
  {
    var first := Selected(view, validators, list[0]);
    if i < |first| {
      p := 0;
    } else {
      p := SelectedIsListed(view, validators, list[1..], i - |first|);
      p := p + 1;
    }
  }

  /**
   From storage to voters, on arbitrary bags and nodes: capping the walk at the extended limit
   changes nothing, provided at most 100 of the voters it lists are ineligible.
   */
  lemma {:induction false} CappedWalkSuffices(
    view: View, validators: set<Account>, bags: Bags, nodes: Nodes, keys: seq<nat>, voterLimit: nat, unlimited: nat)
    requires forall k :: k in keys ==> k in bags
    requires voterLimit + BUFFER <= unlimited
    ensures var capped := WalkBags(bags, nodes, keys, EMPTY, voterLimit + BUFFER).voters;
            var all := WalkBags(bags, nodes, keys, EMPTY, unlimited).voters;
            && (forall a :: a in all ==> a in nodes) && (forall a :: a in capped ==> a in nodes)
            && (Ineligible(view, validators, Scored(nodes, capped)) <= BUFFER ==>
                  Take(Sequential(view, validators, Scored(nodes, capped)), voterLimit)
                  == Take(Sequential(view, validators, Scored(nodes, all)), voterLimit))
  {
    var capped := WalkBags(bags, nodes, keys, EMPTY, voterLimit + BUFFER).voters;
    var all := WalkBags(bags, nodes, keys, EMPTY, unlimited).voters;
    WalkIsSane(bags, nodes, keys, EMPTY, voterLimit + BUFFER);
    WalkIsSane(bags, nodes, keys, EMPTY, unlimited);
    WalkCapped(bags, nodes, keys, EMPTY, voterLimit + BUFFER, unlimited);
    assert Scored(nodes, capped) == Take(Scored(nodes, all), voterLimit + BUFFER);
    BufferSuffices(view, validators, Scored(nodes, all), voterLimit);
  }

  /** Accounts 0, 1, 2, ... with a score of one each. */
  function Numbered(n: nat): (list: seq<(Account, nat)>)
    ensures |list| == n && forall i :: 0 <= i < n ==> list[i] == (i, 1)
  {
    if n == 0 then [] else Numbered(n - 1) + [(n - 1, 1)]
  }

  lemma {:induction false} NobodyValidates(view: View, validators: set<Account>, list: seq<(Account, nat)>)
    requires view == View(map[], map[], map[]) && forall i :: 0 <= i < |list| ==> list[i].0 !in validators
    ensures Sequential(view, validators, list) == []
  {
    if list != [] {
      NobodyValidates(view, validators, list[1..]);
    }
  }

  /** The failing side: with a limit of one, the 102nd voter is the only eligible one, and the buffer ends before it. */
  lemma {:induction false} BufferTooSmall()
    ensures var view, list := View(map[], map[], map[]), Numbered(102);
            && Take(Sequential(view, {101}, Take(list, 1 + BUFFER)), 1) == []
            && Take(Sequential(view, {101}, list), 1) == [Entry(101, Vote(1, [101]))]
  {
    var view, list := View(map[], map[], map[]), Numbered(102);
    var head, last := list[..101], [list[101]];
    assert list == head + last;
    NobodyValidates(view, {101}, head);
    SequentialAppend(view, {101}, head, last);
    assert Sequential(view, {101}, last) == Selected(view, {101}, last[0]) + Sequential(view, {101}, last[1..]);
    assert last[1..] == [];
  }
}
