/**
 What the listener sends for one block when nothing interferes: no other task runs in between,
 no timeout fires and the channels have room.
 */
module UndisturbedListener {
  import opened Common
  import opened Monitor

  /** The step that takes the listener on when nothing is in its way. */
  function ListenerStep(c: Control): Step
    requires !c.Idle?
  {
    match c
    case Clearing(_) => SendClear
    case Entering(_) => SendEnter
    case Offering(_) => OfferBlock
    case Exiting(_) => SendExit
    case Detailing(_) => Details(true)
  }

  /** Up to `n` steps of the listener alone, until it is idle or has to wait. */
  function Proceed(s: State, n: nat): State
    decreases n
  {
    if n == 0 || s.control.Idle? || !Enabled(s, ListenerStep(s.control)) then s
    else Proceed(Apply(s, ListenerStep(s.control)), n - 1)
  }

  lemma {:induction false} IdleStays(s: State, n: nat)
    requires Proceed(s, n).control.Idle?
    ensures Proceed(s, n + 1) == Proceed(s, n)
    decreases n
  {
    if n > 0 && !s.control.Idle? && Enabled(s, ListenerStep(s.control)) {
      IdleStays(Apply(s, ListenerStep(s.control)), n - 1);
    }
  }

  lemma {:induction false} TwoSteps(s: State)
    ensures s.control.Idle? ==> Proceed(s, 2) == s
    ensures !s.control.Idle? && Enabled(s, ListenerStep(s.control)) ==>
      var t := Apply(s, ListenerStep(s.control));
      Proceed(s, 2) == if t.control.Idle? || !Enabled(t, ListenerStep(t.control)) then t else Apply(t, ListenerStep(t.control))
  {
    if !s.control.Idle? && Enabled(s, ListenerStep(s.control)) {
      var t := Apply(s, ListenerStep(s.control));
      assert Proceed(s, 2) == Proceed(t, 1);
      if !t.control.Idle? && Enabled(t, ListenerStep(t.control)) {
        assert Proceed(t, 1) == Proceed(Apply(t, ListenerStep(t.control)), 0);
      }
    }
  }

  lemma {:induction false} UndisturbedPhase(s: State, at: nat)
    requires at + 1 == |s.seen| && s.prevRound == Some(s.seen[at].round) && Free(s.era)
    requires s.seen[at].phase.Off? || Free(s.miner)
    ensures var t, phase := Proceed(OnPhase(s, at), 2), s.seen[at].phase;
            && t.control.Idle? && t.ticks == s.ticks
            && t.miner.sent == s.miner.sent + (if phase.Signed? || phase.Snapshot? then [ProcessBlock(at)] else [])
            && t.era.sent == s.era.sent + (if phase.Off? then [if s.prevPhase == Some(Off) then NewBlock(at) else EnterOff]
                                           else if !phase.Other? && s.prevPhase == Some(Off) then [ExitOff] else [])
  {
    TwoSteps(OnPhase(s, at));
    PhasePlaces(s, at);
  }

  /**
   With room in the channels and nothing else running, one block leads to exactly these
   messages: a tick on a round increment; clearing on an increment in the Off phase; the block
   itself in the phases the miner works in; the signals on entering and leaving the Off phase;
   and an announcement in the Off phase, except that the entry signal, not yet received, leaves
   no room for the announcement of the same block.
   */
  lemma {:induction false} UndisturbedBlock(s: State, block: Block)
    requires Placed(s) && s.control.Idle? && Free(s.miner) && Free(s.ticks) && Free(s.era)
    ensures var t, at := Proceed(OnBlock(s, block), 3), |s.seen|;
            var increment := s.prevRound.Some? && block.round > s.prevRound.value;
            && t.control.Idle?
            && t.ticks.sent == s.ticks.sent + (if increment then [at] else [])
            && t.miner.sent == s.miner.sent + (if increment && block.phase.Off? then [ClearSnapshots(at)]
                                               else if block.phase.Signed? || block.phase.Snapshot? then [ProcessBlock(at)]
                                               else [])
            && t.era.sent == s.era.sent + (if block.phase.Off? then [if s.prevPhase == Some(Off) then NewBlock(at) else EnterOff]
                                           else if !block.phase.Other? && s.prevPhase == Some(Off) then [ExitOff] else [])
  {
    var at := |s.seen|;
    var u := s.(seen := s.seen + [block], prevRound := Some(block.round));
    if s.prevRound.Some? && block.round > s.prevRound.value {
      var v := u.(ticks := Offer(u.ticks, at));
      if block.phase.Off? {
        var w := v.(control := Clearing(at));
        UndisturbedPhase(w.(miner := Put(w.miner, ClearSnapshots(at))), at);
      } else {
        UndisturbedPhase(v, at);
        IdleStays(OnPhase(v, at), 2);
      }
    } else {
      UndisturbedPhase(u, at);
      IdleStays(OnPhase(u, at), 2);
    }
  }
}
