/**
 Runs of the monitor: what holds of every interleaving of its tasks, up to the solutions the
 miner submits.
 */
module MonitorRuns {
  import opened Common
  import opened Monitor
  import MT = MinerTask

  /** A run of the system: one enabled step after the other. */
  ghost predicate IsRun(states: seq<State>, steps: seq<Step>) {
    && |states| == |steps| + 1
    && states[0] == INITIAL
    && forall i :: 0 <= i < |steps| ==> Enabled(states[i], steps[i]) && states[i + 1] == Apply(states[i], steps[i])
  }

  ghost predicate Inv(s: State) {
    MinerInv(s) && TickInv(s) && PruneInv(s) && SignalInv(s)
  }

  /** Whether, after the first `n` steps, the latest entry signal was cancelled while pruning was off. */
  predicate Lost(states: seq<State>, steps: seq<Step>, n: nat)
    requires n <= |steps| <= |states|
  {
    n > 0 && LostAfter(states[n - 1], steps[n - 1], Lost(states, steps, n - 1))
  }

  lemma {:induction false} RunKeepsLoss(states: seq<State>, steps: seq<Step>, n: nat)
    requires IsRun(states, steps) && n <= |steps|
    ensures LossInv(states[n], Lost(states, steps, n))
  {
    if n > 0 {
      RunKeepsLoss(states, steps, n - 1);
      StepKeepsLossInv(states[n - 1], steps[n - 1], Lost(states, steps, n - 1));
    }
  }

  lemma {:induction false} RunKeepsInv(states: seq<State>, steps: seq<Step>)
    requires IsRun(states, steps)
    ensures Inv(states[|steps|])
  {
    RunKeepsLoss(states, steps, |steps|);
    if steps != [] {
      var n := |steps| - 1;
      RunKeepsInv(states[..n + 1], steps[..n]);
      StepKeepsMinerInv(states[n], steps[n]);
      StepKeepsTickInv(states[n], steps[n]);
      StepKeepsPruneInv(states[n], steps[n]);
    }
  }

  ghost predicate RoundsNeverFall(seen: seq<Block>) {
    forall i, j :: 0 <= i <= j < |seen| ==> seen[i].round <= seen[j].round
  }

  function Received<M>(c: Channel<M>): seq<M> {
    if c.taken <= |c.sent| then c.sent[..c.taken] else c.sent
  }

  /**
   In every interleaving, with blocks skipped and clearing signals lost as may be, the miner
   receives messages for a subsequence of the blocks, in order, and in nondecreasing rounds
   whenever the chain's rounds are.
   */
  lemma {:induction false} MinerReceivesInOrder(states: seq<State>, steps: seq<Step>, j: nat, k: nat)
    requires IsRun(states, steps)
    requires j < k < |Received(states[|steps|].miner)|
    ensures var s := states[|steps|];
            var m, n := Received(s.miner)[j], Received(s.miner)[k];
            && Justified(s.seen, m) && Justified(s.seen, n)
            && m.at < n.at
            && (RoundsNeverFall(s.seen) ==> s.seen[m.at].round <= s.seen[n.at].round)
            && (RoundsNeverFall(s.seen) && n.ClearSnapshots? ==> s.seen[m.at].round < s.seen[n.at].round)
  {
    RunKeepsInv(states, steps);
    var s := states[|steps|];
    assert Received(s.miner)[j] == s.miner.sent[j] && Received(s.miner)[k] == s.miner.sent[k];
  }

  /** Old-rounds ticks are sent for round increments only, so their rounds strictly increase. */
  lemma {:induction false} TicksIncrease(states: seq<State>, steps: seq<Step>, j: nat, k: nat)
    requires IsRun(states, steps) && RoundsNeverFall(states[|steps|].seen)
    requires j < k < |states[|steps|].ticks.sent|
    ensures var s := states[|steps|];
            && s.ticks.sent[j] < s.ticks.sent[k] < |s.seen|
            && s.seen[s.ticks.sent[j]].round < s.seen[s.ticks.sent[k]].round
  {
    RunKeepsInv(states, steps);
    var s := states[|steps|];
    assert Increment(s.seen, s.ticks.sent[j]) && Increment(s.seen, s.ticks.sent[k]);
    assert s.seen[s.ticks.sent[j]].round <= s.seen[s.ticks.sent[k] - 1].round;
  }

  /** Every prune step answers the announcement of a block read in the Off phase, and no delivery of a block gets two. */
  lemma {:induction false} PruningIsRateLimited(states: seq<State>, steps: seq<Step>, i: nat, j: nat)
    requires IsRun(states, steps)
    requires i <= j < |states[|steps|].prunes|
    ensures var s := states[|steps|];
            var m, n := s.prunes[i], s.prunes[j];
            && m < |s.era.sent| && s.era.sent[m].NewBlock? && s.era.sent[m].at < |s.seen|
            && s.seen[s.era.sent[m].at].phase.Off?
            && (i < j ==> n < |s.era.sent| && s.era.sent[n].NewBlock? && s.era.sent[m].at < s.era.sent[n].at)
  {
    RunKeepsInv(states, steps);
  }

  // ---- entering and leaving the Off phase ----

  /** Some entry signal was cancelled while pruning was off, and none has been sent since. */
  ghost predicate EntryLost(states: seq<State>, steps: seq<Step>, n: nat)
    requires n <= |steps| <= |states|
  {
    exists c :: 0 <= c < n && LosesEntry(states[c], steps[c]) && forall j :: c < j < n ==> !steps[j].SendEnter?
  }

  lemma {:induction false} LostMeansEntryLost(states: seq<State>, steps: seq<Step>, n: nat)
    requires n <= |steps| <= |states|
    ensures Lost(states, steps, n) <==> EntryLost(states, steps, n)
  {
    if n > 0 {
      LostMeansEntryLost(states, steps, n - 1);
      if EntryLost(states, steps, n - 1) {
        var c :| 0 <= c < n - 1 && LosesEntry(states[c], steps[c]) && forall j :: c < j < n - 1 ==> !steps[j].SendEnter?;
        assert !steps[n - 1].SendEnter? ==> forall j :: c < j < n ==> !steps[j].SendEnter?;
      }
    }
  }

  /** An entry has been sent, and no exit after it. */
  ghost predicate EnteredSinceExit(sent: seq<EraMessage>) {
    exists e :: 0 <= e < |sent| && sent[e].EnterOff? && forall j :: e < j < |sent| ==> !sent[j].ExitOff?
  }

  lemma {:induction false} ModeMeansEntered(sent: seq<EraMessage>)
    ensures Mode(sent) <==> EnteredSinceExit(sent)
  {
    if sent != [] {
      var n := |sent| - 1;
      var init := sent[..n];
      ModeMeansEntered(init);
      if sent[n].EnterOff? {
        assert EnteredSinceExit(sent);
      } else if EnteredSinceExit(init) {
        var e :| 0 <= e < n && init[e].EnterOff? && forall j :: e < j < n ==> !init[j].ExitOff?;
        assert sent[e].EnterOff? && (sent[n].NewBlock? ==> forall j :: e < j < |sent| ==> !sent[j].ExitOff?);
      }
      assert EnteredSinceExit(sent) && sent[n].NewBlock? ==> EnteredSinceExit(init) by {
        if EnteredSinceExit(sent) && sent[n].NewBlock? {
          var e :| 0 <= e < |sent| && sent[e].EnterOff? && forall j :: e < j < |sent| ==> !sent[j].ExitOff?;
          assert init[e].EnterOff? && forall j :: e < j < n ==> !init[j].ExitOff?;
        }
      }
    }
  }

  /**
   In every run, when a block is announced or the Off phase is left: the signals sent so far hold
   an entry with no exit after it if and only if no entry was lost, that is, cancelled while
   pruning was off with no entry sent since.
   */
  lemma {:induction false} EnteredIffNotLost(states: seq<State>, steps: seq<Step>, i: nat)
    requires IsRun(states, steps) && i < |steps| && (steps[i].OfferBlock? || steps[i].SendExit?)
    ensures EnteredSinceExit(states[i].era.sent) <==> !EntryLost(states, steps, i)
  {
    RunKeepsLoss(states, steps, i);
    LostMeansEntryLost(states, steps, i);
    ModeMeansEntered(states[i].era.sent);
  }

  /**
   In every run a prune step is taken exactly when the pruning task receives the announcement of a
   block and finds an era to prune, with an entry but no exit after it among the messages received
   before.
   */
  lemma {:induction false} PrunesWhileEntered(states: seq<State>, steps: seq<Step>, i: nat)
    requires IsRun(states, steps) && i < |steps|
    ensures var s, t := states[i], states[i + 1];
            var k := s.era.taken;
            t.prunes == s.prunes +
              (if steps[i].EraReceives? && steps[i].eraFound && k < |s.era.sent| && s.era.sent[k].NewBlock?
                  && EnteredSinceExit(s.era.sent[..k]) then [k] else [])
  {
    RunKeepsLoss(states, steps, i);
    var s := states[i];
    ModeMeansEntered(s.era.sent[..s.era.taken]);
    if steps[i].Begin? {
      BlockPlaces(s, steps[i].block);
    } else if steps[i].SendClear? {
      PhasePlaces(s.(miner := Put(s.miner, ClearSnapshots(s.control.at))), s.control.at);
    }
  }

  /** Step `i` put the message at place `k` into the channel of the pruning task. */
  ghost predicate SentAt(states: seq<State>, steps: seq<Step>, i: nat, k: nat)
    requires |states| == |steps| + 1
  {
    && i < |steps|
    && |states[i].era.sent| == k < |states[i + 1].era.sent|
    && (states[i + 1].era.sent[k].NewBlock? <==> steps[i].OfferBlock?)
    && (states[i + 1].era.sent[k].ExitOff? <==> steps[i].SendExit?)
  }

  lemma {:induction false} EraGrows(s: State, step: Step)
    requires Placed(s) && Enabled(s, step)
    ensures var t := Apply(s, step);
            || t.era.sent == s.era.sent
            || (step.SendEnter? && t.era.sent == s.era.sent + [EnterOff])
            || (step.SendExit? && t.era.sent == s.era.sent + [ExitOff])
            || (step.OfferBlock? && t.era.sent == s.era.sent + [NewBlock(s.control.at)])
  {
    if step.Begin? {
      BlockPlaces(s, step.block);
    } else if step.SendClear? {
      PhasePlaces(s.(miner := Put(s.miner, ClearSnapshots(s.control.at))), s.control.at);
    } else if step.EraReceives? {
      EraFrame(s, step.eraFound);
    }
  }

  /** Every message in the channel was put there by some step, behind the messages before it. */
  ghost predicate Origin(states: seq<State>, steps: seq<Step>, n: nat, k: nat, i: nat)
    requires |states| == |steps| + 1 && n <= |steps| && k < |states[n].era.sent|
  {
    i < n && SentAt(states, steps, i, k) && states[i].era.sent == states[n].era.sent[..k]
    && states[i + 1].era.sent[k] == states[n].era.sent[k]
  }

  lemma {:induction false} EverySignalHasAnOrigin(states: seq<State>, steps: seq<Step>, n: nat, k: nat)
    requires IsRun(states, steps) && n <= |steps| && k < |states[n].era.sent|
    ensures exists i: nat :: Origin(states, steps, n, k, i)
  {
    if n > 0 {
      RunKeepsLoss(states, steps, n - 1);
      EraGrows(states[n - 1], steps[n - 1]);
      if k < |states[n - 1].era.sent| {
        EverySignalHasAnOrigin(states, steps, n - 1, k);
        var i: nat :| Origin(states, steps, n - 1, k, i);
        OriginStays(states, steps, n, k, i);
      } else {
        OriginNow(states, steps, n, k);
      }
    }
  }

  lemma {:induction false} OriginStays(states: seq<State>, steps: seq<Step>, n: nat, k: nat, i: nat)
    requires |states| == |steps| + 1 && 0 < n <= |steps| && k < |states[n - 1].era.sent|
    requires states[n - 1].era.sent <= states[n].era.sent && Origin(states, steps, n - 1, k, i)
    ensures Origin(states, steps, n, k, i)
  {
    assert states[n].era.sent[..k] == states[n - 1].era.sent[..k];
  }

  lemma {:induction false} OriginNow(states: seq<State>, steps: seq<Step>, n: nat, k: nat)
    requires IsRun(states, steps) && 0 < n <= |steps|
    requires |states[n - 1].era.sent| <= k < |states[n].era.sent|
    ensures Origin(states, steps, n, k, n - 1)
  {
    RunKeepsLoss(states, steps, n - 1);
    EraGrows(states[n - 1], steps[n - 1]);
    assert states[n].era.sent[..k] == states[n - 1].era.sent;
  }

  /** The pruning task is about to receive a block announcement. */
  predicate BlockIsNext(s: State) {
    s.era.taken < |s.era.sent| && s.era.sent[s.era.taken].NewBlock?
  }

  /**
   In every run, a block announcement about to be received finds pruning inactive if and only if
   the entry of its Off phase was lost when it was sent.
   */
  lemma {:induction false} AnnouncementHeardIffNotLost(states: seq<State>, steps: seq<Step>)
    requires IsRun(states, steps) && BlockIsNext(states[|steps|])
    ensures exists i: nat ::
      && Origin(states, steps, |steps|, states[|steps|].era.taken, i)
      && (states[|steps|].active <==> !EntryLost(states, steps, i))
  {
    var n, s := |steps|, states[|steps|];
    EverySignalHasAnOrigin(states, steps, n, s.era.taken);
    var i: nat :| Origin(states, steps, n, s.era.taken, i);
    RunKeepsLoss(states, steps, n);
    EnteredIffNotLost(states, steps, i);
    ModeMeansEntered(states[i].era.sent);
  }

  ghost predicate NoEntryCancelled(states: seq<State>, steps: seq<Step>)
    requires |steps| <= |states|
  {
    forall i :: 0 <= i < |steps| ==> !(steps[i].Cancel? && states[i].control.Entering?)
  }

  /**
   As long as no timeout cancels an entry signal, whatever else is cancelled: every block
   announcement the pruning task receives finds pruning active, and between two exits from the
   Off phase there is always an entry.
   */
  lemma {:induction false} SignalsArePaired(states: seq<State>, steps: seq<Step>)
    requires IsRun(states, steps) && NoEntryCancelled(states, steps)
    ensures var s := states[|steps|];
            && (BlockIsNext(s) ==> s.active)
            && forall i, k :: 0 <= i < k < |s.era.sent| && s.era.sent[i].ExitOff? && s.era.sent[k].ExitOff? ==>
                 exists e :: i < e < k && s.era.sent[e].EnterOff?
  {
    var n, sent := |steps|, states[|steps|].era.sent;
    if BlockIsNext(states[n]) {
      AnnouncementHeardIffNotLost(states, steps);
    }
    forall i, k | 0 <= i < k < |sent| && sent[i].ExitOff? && sent[k].ExitOff?
      ensures exists e :: i < e < k && sent[e].EnterOff?
    {
      EverySignalHasAnOrigin(states, steps, n, k);
      var step: nat :| Origin(states, steps, n, k, step);
      EnteredIffNotLost(states, steps, step);
      var e :| 0 <= e < k && sent[..k][e].EnterOff? && forall j :: e < j < k ==> !sent[..k][j].ExitOff?;
      assert sent[..k][i].ExitOff?;
    }
  }

  lemma {:induction false} RunStep(states: seq<State>, steps: seq<Step>, step: Step)
    returns (longer: seq<State>, taken: seq<Step>, t: State)
    requires IsRun(states, steps) && Enabled(states[|steps|], step)
    ensures t == Apply(states[|steps|], step) && longer == states + [t] && taken == steps + [step]
    ensures IsRun(longer, taken) && longer[|taken|] == t
  {
    t := Apply(states[|steps|], step);
    longer, taken := states + [t], steps + [step];
    forall i | 0 <= i < |taken| ensures Enabled(longer[i], taken[i]) && longer[i + 1] == Apply(longer[i], taken[i]) {
      assert i < |steps| ==> longer[i] == states[i] && longer[i + 1] == states[i + 1] && taken[i] == steps[i];
    }
  }

  /**
   Losing an entry matters in every run: wherever it can happen, the listener can go on to see
   one more Off block whose announcement finds pruning inactive. The entry is not sent again,
   because the phase was noted before the send.
   */
  lemma {:induction false} LostEntryGoesUnheard(states: seq<State>, steps: seq<Step>)
    returns (longer: seq<State>, taken: seq<Step>)
    requires IsRun(states, steps) && Enabled(states[|steps|], Cancel) && LosesEntry(states[|steps|], Cancel)
    ensures IsRun(longer, taken) && steps < taken && states < longer
    ensures BlockIsNext(longer[|taken|]) && !longer[|taken|].active
  {
    var s := states[|steps|];
    RunKeepsInv(states, steps);
    var t: State;
    longer, taken, t := RunStep(states, steps, Cancel);
    longer, taken, t := RunStep(longer, taken, EraReceives(false));
    EraFrame(longer[|taken| - 1], false);
    ModeStep(s.era.sent, s.era.taken);
    assert s.era.sent[..|s.era.sent|] == s.era.sent;
    assert t.era == Channel(s.era.sent, |s.era.sent|) && !t.active && t.control.Idle? && t.prevPhase == Some(Off);
    var round := if t.prevRound.Some? then t.prevRound.value else 0;
    longer, taken, t := RunStep(longer, taken, Begin(Block(Off, round)));
    longer, taken, t := RunStep(longer, taken, OfferBlock);
  }

  /** The listener has entered the Off phase and the pruning task knows. */
  lemma {:induction false} EnteredOnce() returns (states: seq<State>, steps: seq<Step>)
    ensures IsRun(states, steps)
    ensures var t := states[|steps|];
            && t.era == Channel([EnterOff], 1) && t.control.Idle? && t.prevPhase == Some(Off) && t.prevRound == Some(0)
  {
    var t: State;
    states, steps := [INITIAL], [];
    states, steps, t := RunStep(states, steps, Begin(Block(Off, 0)));
    states, steps, t := RunStep(states, steps, SendEnter);
    states, steps, t := RunStep(states, steps, OfferBlock);
    states, steps, t := RunStep(states, steps, EraReceives(false));
  }

  /** A run that loses an entry: the exit signal before it has not been received yet. */
  lemma {:induction false} EntryBehindUnreadExit() returns (states: seq<State>, steps: seq<Step>)
    ensures IsRun(states, steps) && Enabled(states[|steps|], Cancel) && LosesEntry(states[|steps|], Cancel)
  {
    var t: State;
    states, steps := EnteredOnce();
    states, steps, t := RunStep(states, steps, Begin(Block(Signed(9), 0)));
    states, steps, t := RunStep(states, steps, SendExit);
    states, steps, t := RunStep(states, steps, Details(false));
    states, steps, t := RunStep(states, steps, Begin(Block(Off, 0)));
  }

  /** Such runs exist: a block announcement that finds pruning inactive. */
  lemma {:induction false} CancelledEntryIsLost() returns (states: seq<State>, steps: seq<Step>)
    ensures IsRun(states, steps)
    ensures BlockIsNext(states[|steps|]) && !states[|steps|].active
  {
    states, steps := EntryBehindUnreadExit();
    states, steps := LostEntryGoesUnheard(states, steps);
  }

  // ---- what reaches the miner ----

  /** The content a message has when the miner handles it, given the details read for each block. */
  function Delivered(received: seq<MinerMessage>, details: nat -> (MT.Block, MT.Answers)): seq<MT.Message> {
    seq(|received|, k requires 0 <= k < |received| =>
      match received[k]
      case ProcessBlock(at) => MT.ProcessBlock(details(at).0, details(at).1)
      case ClearSnapshots(_) => MT.ClearSnapshots)
  }

  /** Details carry the round and phase their block was read with. */
  ghost predicate Matches(seen: seq<Block>, details: nat -> (MT.Block, MT.Answers)) {
    forall at :: 0 <= at < |seen| ==> details(at).0.round == seen[at].round && details(at).0.phase == seen[at].phase
  }

  /**
   The whole system: in every interleaving of listener, channels, timeouts and miner, every
   solution submitted belongs to a block the listener saw in the signed phase, carries its round
   and is gated.
   */
  lemma {:induction false} SubmissionsAreGatedInEveryRun(
    states: seq<State>, steps: seq<Step>, cfg: MT.Config, details: nat -> (MT.Block, MT.Answers), i: nat, sol: MT.Solution)
    requires IsRun(states, steps) && cfg.nPages > 0 && Matches(states[|steps|].seen, details)
    requires var t := MT.RunTask(cfg, Delivered(Received(states[|steps|].miner), details));
             i < |t.outcomes| && MT.Submit(sol) in t.outcomes[i].effects
    ensures var s := states[|steps|];
            var received := Received(s.miner);
            var msgs := Delivered(received, details);
            && received[i].ProcessBlock? && received[i].at < |s.seen|
            && s.seen[received[i].at].phase.Signed? && sol.round == s.seen[received[i].at].round
            && MT.Proper(cfg, msgs[..i + 1], sol, MT.RunTask(cfg, msgs).outcomes[i].effects)
  {
    RunKeepsInv(states, steps);
    var s := states[|steps|];
    var received := Received(s.miner);
    var msgs := Delivered(received, details);
    MT.EverySubmissionIsGated(cfg, msgs, i, sol);
    assert msgs[..i + 1][i] == msgs[i];
    assert Justified(s.seen, s.miner.sent[i]) && received[i] == s.miner.sent[i];
  }

  lemma {:induction false} MetricCountsRoundsOnce(
    states: seq<State>, steps: seq<Step>, cfg: MT.Config, details: nat -> (MT.Block, MT.Answers))
    requires IsRun(states, steps) && cfg.nPages > 0 && Matches(states[|steps|].seen, details)
    requires RoundsNeverFall(states[|steps|].seen)
    ensures var counted := MT.RunTask(cfg, Delivered(Received(states[|steps|].miner), details)).miner.counted;
            forall a, b :: 0 <= a < b < |counted| ==> counted[a] < counted[b]
  {
    RunKeepsInv(states, steps);
    var received := Received(states[|steps|].miner);
    var msgs := Delivered(received, details);
    forall a, b | 0 <= a < b < |msgs| && msgs[a].ProcessBlock? && msgs[b].ProcessBlock?
      ensures msgs[a].block.round <= msgs[b].block.round
    {
      MinerReceivesInOrder(states, steps, a, b);
    }
    MT.OutcompetedRoundsCountOnce(cfg, msgs);
  }
}
