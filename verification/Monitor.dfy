/**
 The monitor's tasks and channels: a listener follows finalized blocks and feeds the miner, the
 old-rounds task and the era-pruning task through channels of capacity one. Some messages are
 offered and dropped when the channel is full, others block until there is room, and a timeout
 may cancel the listener wherever it waits. Steps of the tasks interleave freely.
 */
module Monitor {
  import opened Common

  datatype Block = Block(phase: Phase, round: nat)

  /** Messages name the block they were sent for by its place in the order the listener saw. */
  datatype MinerMessage = ProcessBlock(at: nat) | ClearSnapshots(at: nat)

  datatype EraMessage = EnterOff | ExitOff | NewBlock(at: nat)

  /** A channel: everything ever put into it, and how much of that was received. */
  datatype Channel<M> = Channel(sent: seq<M>, taken: nat)

  predicate Free<M>(c: Channel<M>) {
    |c.sent| == c.taken
  }

  function Put<M>(c: Channel<M>, m: M): Channel<M> {
    c.(sent := c.sent + [m])
  }

  /** Send without waiting: a full channel drops the message. */
  function Offer<M>(c: Channel<M>, m: M): Channel<M> {
    if Free(c) then Put(c, m) else c
  }

  /** Where the listener waits, and for which block. */
  datatype Control =
    | Idle
    | Clearing(at: nat)
    | Entering(at: nat)
    | Offering(at: nat)
    | Exiting(at: nat)
    | Detailing(at: nat)

  datatype State = State(
    seen: seq<Block>, prevRound: Option<nat>, prevPhase: Option<Phase>, control: Control,
    miner: Channel<MinerMessage>, ticks: Channel<nat>, era: Channel<EraMessage>,
    active: bool, prunes: seq<nat>)

  const INITIAL := State([], None, None, Idle, Channel([], 0), Channel([], 0), Channel([], 0), false, [])

  datatype Step =
    | Begin(block: Block)
    | SendClear
    | SendEnter
    | OfferBlock
    | SendExit
    | Details(ok: bool)
    | Cancel
    | MinerReceives
    | TickReceived
    | EraReceives(eraFound: bool)

  /** A send waits only while its channel is full; reading the block's details waits for the network. */
  predicate Waits(s: State) {
    || (s.control.Clearing? && !Free(s.miner))
    || ((s.control.Entering? || s.control.Exiting?) && !Free(s.era))
    || s.control.Detailing?
  }

  predicate Enabled(s: State, step: Step) {
    match step
    case Begin(_) => s.control.Idle?
    case SendClear => s.control.Clearing? && s.control.at < |s.seen| && Free(s.miner)
    case SendEnter => s.control.Entering? && Free(s.era)
    case OfferBlock => s.control.Offering?
    case SendExit => s.control.Exiting? && Free(s.era)
    case Details(_) => s.control.Detailing?
    case Cancel => Waits(s)
    case MinerReceives => s.miner.taken < |s.miner.sent|
    case TickReceived => s.ticks.taken < |s.ticks.sent|
    case EraReceives(_) => s.era.taken < |s.era.sent|
  }

  /** The phase part of block processing: note the phase first, then go and send what it calls for. */
  function OnPhase(s: State, at: nat): State
    requires at < |s.seen|
  {
    var last, phase := s.prevPhase, s.seen[at].phase;
    var t := s.(prevPhase := Some(phase));
    match phase
    case Off => if last == Some(Off) then t.(control := Offering(at)) else t.(control := Entering(at))
    case Other => t.(control := Idle)
    case _ => if last == Some(Off) then t.(control := Exiting(at)) else t.(control := Detailing(at))
  }

  /** A block has been read: note the round first, then signal an increment. */
  function OnBlock(s: State, block: Block): State {
    var at := |s.seen|;
    var t := s.(seen := s.seen + [block], prevRound := Some(block.round));
    if s.prevRound.Some? && block.round > s.prevRound.value then
      var u := t.(ticks := Offer(t.ticks, at));
      if block.phase.Off? then u.(control := Clearing(at)) else OnPhase(u, at)
    else OnPhase(t, at)
  }

  /** The pruning task handles one message; pruning may find no era to prune. */
  function OnEra(s: State, eraFound: bool): State
    requires s.era.taken < |s.era.sent|
  {
    var k := s.era.taken;
    var t := s.(era := s.era.(taken := k + 1));
    match s.era.sent[k]
    case EnterOff => t.(active := true)
    case ExitOff => t.(active := false)
    case NewBlock(_) => if s.active && eraFound then t.(prunes := s.prunes + [k]) else t
  }

  function Apply(s: State, step: Step): State
    requires Enabled(s, step)
  {
    match step
    case Begin(block) => OnBlock(s, block)
    case SendClear => OnPhase(s.(miner := Put(s.miner, ClearSnapshots(s.control.at))), s.control.at)
    case SendEnter => s.(era := Put(s.era, EnterOff), control := Offering(s.control.at))
    case OfferBlock => s.(era := Offer(s.era, NewBlock(s.control.at)), control := Idle)
    case SendExit => s.(era := Put(s.era, ExitOff), control := Detailing(s.control.at))
    case Details(ok) =>
      s.(miner := if ok then Offer(s.miner, ProcessBlock(s.control.at)) else s.miner, control := Idle)
    case Cancel => s.(control := Idle)
    case MinerReceives => s.(miner := s.miner.(taken := s.miner.taken + 1))
    case TickReceived => s.(ticks := s.ticks.(taken := s.ticks.taken + 1))
    case EraReceives(eraFound) => OnEra(s, eraFound)
  }

  /** The listener works on the newest block, and that block is of the phase the place calls for. */
  predicate Placed(s: State) {
    && (!s.control.Idle? ==> s.control.at + 1 == |s.seen|)
    && (s.control.Clearing? || s.control.Entering? || s.control.Offering? ==> s.seen[s.control.at].phase.Off?)
    && (s.control.Exiting? || s.control.Detailing? ==> Mining(s.seen[s.control.at].phase))
    && (s.prevRound == if s.seen == [] then None else Some(s.seen[|s.seen| - 1].round))
    && (s.control.Clearing? ==> Increment(s.seen, s.control.at))
  }

  predicate Mining(phase: Phase) {
    phase.Signed? || phase.Snapshot?
  }

  predicate Increment(seen: seq<Block>, at: nat) {
    0 < at < |seen| && seen[at].round > seen[at - 1].round
  }

  /** What a step of block processing leaves alone. */
  ghost predicate PhaseFrame(s: State, t: State) {
    && t.seen == s.seen && t.prevRound == s.prevRound && t.miner == s.miner && t.ticks == s.ticks
    && t.era == s.era && t.active == s.active && t.prunes == s.prunes
  }

  lemma {:induction false} PhasePlaces(s: State, at: nat)
    requires at + 1 == |s.seen| && s.prevRound == Some(s.seen[at].round)
    ensures Placed(OnPhase(s, at)) && PhaseFrame(s, OnPhase(s, at)) && !OnPhase(s, at).control.Clearing?
  {
  }

  /** What reading a block leaves alone: of the channels, only the ticks may change. */
  ghost predicate BlockFrame(s: State, t: State, block: Block) {
    && t.seen == s.seen + [block] && t.miner == s.miner
    && t.era == s.era && t.active == s.active && t.prunes == s.prunes
  }

  lemma {:induction false} BlockPlaces(s: State, block: Block)
    requires Placed(s) && s.control.Idle?
    ensures Placed(OnBlock(s, block)) && BlockFrame(s, OnBlock(s, block), block)
  {
    var at := |s.seen|;
    var t := s.(seen := s.seen + [block], prevRound := Some(block.round));
    PhasePlaces(t, at);
    PhasePlaces(t.(ticks := Offer(t.ticks, at)), at);
  }

  lemma {:induction false} StepKeepsPlaced(s: State, step: Step)
    requires Placed(s) && Enabled(s, step)
    ensures Placed(Apply(s, step))
  {
    if step.Begin? {
      BlockPlaces(s, step.block);
    } else if step.SendClear? {
      PhasePlaces(s.(miner := Put(s.miner, ClearSnapshots(s.control.at))), s.control.at);
    }
  }

  // ---- the miner's messages ----

  /** Blocks go to the miner in the phases it works in; it is told to clear on a round increment in the Off phase. */
  predicate Justified(seen: seq<Block>, m: MinerMessage) {
    && m.at < |seen|
    && (m.ProcessBlock? ==> Mining(seen[m.at].phase))
    && (m.ClearSnapshots? ==> seen[m.at].phase.Off? && Increment(seen, m.at))
  }

  /** At most one message per block, in block order, all for blocks before `bound`, and at most one waiting. */
  ghost predicate InOrder(seen: seq<Block>, c: Channel<MinerMessage>, bound: nat) {
    && c.taken <= |c.sent| <= c.taken + 1
    && (forall k :: 0 <= k < |c.sent| ==> Justified(seen, c.sent[k]) && c.sent[k].at < bound)
    && (forall j, k :: 0 <= j < k < |c.sent| ==> c.sent[j].at < c.sent[k].at)
  }

  /** The newest block may still get its message while the listener is on its way to send it. */
  function MinerBound(s: State): nat
    requires Placed(s)
  {
    if s.control.Clearing? || s.control.Exiting? || s.control.Detailing? then s.control.at else |s.seen|
  }

  ghost predicate MinerInv(s: State) {
    Placed(s) && InOrder(s.seen, s.miner, MinerBound(s))
  }

  lemma {:induction false} OrderExtends(seen: seq<Block>, block: Block, c: Channel<MinerMessage>)
    requires InOrder(seen, c, |seen|)
    ensures InOrder(seen + [block], c, |seen|)
  {
    forall k | 0 <= k < |c.sent| ensures Justified(seen + [block], c.sent[k]) {
      assert Justified(seen, c.sent[k]);
    }
  }

  lemma {:induction false} OrderPut(seen: seq<Block>, c: Channel<MinerMessage>, m: MinerMessage)
    requires Free(c) && InOrder(seen, c, m.at) && Justified(seen, m)
    ensures InOrder(seen, Put(c, m), |seen|)
  {
  }

  lemma {:induction false} OrderWeakens(seen: seq<Block>, c: Channel<MinerMessage>, bound: nat, higher: nat)
    requires InOrder(seen, c, bound) && bound <= higher
    ensures InOrder(seen, c, higher)
  {
  }

  lemma {:induction false} BlockKeepsOrder(s: State, block: Block)
    requires MinerInv(s) && s.control.Idle?
    ensures MinerInv(OnBlock(s, block))
  {
    BlockPlaces(s, block);
    OrderExtends(s.seen, block, s.miner);
    OrderWeakens(s.seen + [block], s.miner, |s.seen|, MinerBound(OnBlock(s, block)));
  }

  lemma {:induction false} ClearKeepsOrder(s: State)
    requires MinerInv(s) && Enabled(s, SendClear)
    ensures MinerInv(Apply(s, SendClear))
  {
    var m := ClearSnapshots(s.control.at);
    OrderPut(s.seen, s.miner, m);
    PhasePlaces(s.(miner := Put(s.miner, m)), s.control.at);
  }

  lemma {:induction false} DetailsKeepOrder(s: State, ok: bool)
    requires MinerInv(s) && Enabled(s, Details(ok))
    ensures MinerInv(Apply(s, Details(ok)))
  {
    OrderWeakens(s.seen, s.miner, s.control.at, |s.seen|);
    if ok && Free(s.miner) {
      OrderPut(s.seen, s.miner, ProcessBlock(s.control.at));
    }
  }

  lemma {:induction false} StepKeepsMinerInv(s: State, step: Step)
    requires MinerInv(s) && Enabled(s, step)
    ensures MinerInv(Apply(s, step))
  {
    StepKeepsPlaced(s, step);
    match step {
      case Begin(block) => BlockKeepsOrder(s, block);
      case SendClear => ClearKeepsOrder(s);
      case Details(ok) => DetailsKeepOrder(s, ok);
      case Cancel => OrderWeakens(s.seen, s.miner, MinerBound(s), |s.seen|);
      case _ =>
    }
  }

  // ---- ticks for the old-rounds task ----

  ghost predicate TicksInOrder(seen: seq<Block>, c: Channel<nat>) {
    && c.taken <= |c.sent| <= c.taken + 1
    && (forall k :: 0 <= k < |c.sent| ==> Increment(seen, c.sent[k]))
    && (forall j, k :: 0 <= j < k < |c.sent| ==> c.sent[j] < c.sent[k])
  }

  ghost predicate TickInv(s: State) {
    Placed(s) && TicksInOrder(s.seen, s.ticks)
  }

  lemma {:induction false} TicksExtend(seen: seq<Block>, block: Block, c: Channel<nat>)
    requires TicksInOrder(seen, c)
    ensures TicksInOrder(seen + [block], c)
    ensures Increment(seen + [block], |seen|) ==> TicksInOrder(seen + [block], Offer(c, |seen|))
  {
    forall k | 0 <= k < |c.sent| ensures Increment(seen + [block], c.sent[k]) {
      assert Increment(seen, c.sent[k]);
    }
  }

  lemma {:induction false} BlockTicks(s: State, block: Block)
    requires Placed(s) && s.control.Idle?
    ensures OnBlock(s, block).ticks ==
      if Increment(s.seen + [block], |s.seen|) then Offer(s.ticks, |s.seen|) else s.ticks
  {
  }

  lemma {:induction false} StepKeepsTickInv(s: State, step: Step)
    requires TickInv(s) && Enabled(s, step)
    ensures TickInv(Apply(s, step))
  {
    StepKeepsPlaced(s, step);
    if step.Begin? {
      BlockPlaces(s, step.block);
      BlockTicks(s, step.block);
      TicksExtend(s.seen, step.block, s.ticks);
    } else if step.SendClear? {
      PhasePlaces(s.(miner := Put(s.miner, ClearSnapshots(s.control.at))), s.control.at);
    }
  }

  // ---- pruning ----

  /** Blocks are offered for pruning in order, at most once each, and only blocks read in the Off phase. */
  ghost predicate OffBlocks(seen: seq<Block>, sent: seq<EraMessage>, bound: nat) {
    && (forall k :: 0 <= k < |sent| && sent[k].NewBlock? ==> sent[k].at < bound && sent[k].at < |seen| && seen[sent[k].at].phase.Off?)
    && (forall j, k :: 0 <= j < k < |sent| && sent[j].NewBlock? && sent[k].NewBlock? ==> sent[j].at < sent[k].at)
  }

  function EraBound(s: State): nat
    requires Placed(s)
  {
    if s.control.Clearing? || s.control.Entering? || s.control.Offering? then s.control.at else |s.seen|
  }

  /** Each prune step answers a message of its own. */
  ghost predicate PrunesAnswer(c: Channel<EraMessage>, prunes: seq<nat>) {
    && c.taken <= |c.sent| <= c.taken + 1
    && (forall i :: 0 <= i < |prunes| ==> prunes[i] < c.taken && c.sent[prunes[i]].NewBlock?)
    && (forall i, j :: 0 <= i < j < |prunes| ==> prunes[i] < prunes[j])
  }

  ghost predicate PruneInv(s: State) {
    Placed(s) && OffBlocks(s.seen, s.era.sent, EraBound(s)) && PrunesAnswer(s.era, s.prunes)
  }

  lemma {:induction false} OffBlocksPut(seen: seq<Block>, sent: seq<EraMessage>, m: EraMessage, bound: nat)
    requires OffBlocks(seen, sent, bound) && bound <= |seen|
    requires m.NewBlock? ==> m.at == bound < |seen| && seen[bound].phase.Off?
    ensures OffBlocks(seen, sent + [m], if m.NewBlock? then bound + 1 else bound)
  {
  }

  lemma {:induction false} PrunesPut(c: Channel<EraMessage>, m: EraMessage, prunes: seq<nat>)
    requires Free(c) && PrunesAnswer(c, prunes)
    ensures PrunesAnswer(Put(c, m), prunes)
  {
  }

  lemma {:induction false} OffBlocksExtend(seen: seq<Block>, block: Block, sent: seq<EraMessage>)
    requires OffBlocks(seen, sent, |seen|)
    ensures OffBlocks(seen + [block], sent, |seen|) && OffBlocks(seen + [block], sent, |seen| + 1)
  {
  }

  /** Receiving a message changes only the pruning task's own variables. */
  lemma {:induction false} EraFrame(s: State, eraFound: bool)
    requires s.era.taken < |s.era.sent|
    ensures var t, k := OnEra(s, eraFound), s.era.taken;
            && t.seen == s.seen && t.control == s.control && t.prevRound == s.prevRound && t.prevPhase == s.prevPhase
            && t.era == Channel(s.era.sent, k + 1)
            && (t.prunes == s.prunes || (s.era.sent[k].NewBlock? && t.prunes == s.prunes + [k]))
            && (t.active <==> s.era.sent[k].EnterOff? || (s.era.sent[k].NewBlock? && s.active))
  {
  }

  lemma {:induction false} PrunesTake(c: Channel<EraMessage>, prunes: seq<nat>)
    requires PrunesAnswer(c, prunes) && c.taken < |c.sent|
    ensures PrunesAnswer(Channel(c.sent, c.taken + 1), prunes)
    ensures c.sent[c.taken].NewBlock? ==> PrunesAnswer(Channel(c.sent, c.taken + 1), prunes + [c.taken])
  {
  }

  lemma {:induction false} EraKeepsPrunes(s: State, eraFound: bool)
    requires PruneInv(s) && s.era.taken < |s.era.sent|
    ensures PruneInv(OnEra(s, eraFound))
  {
    EraFrame(s, eraFound);
    PrunesTake(s.era, s.prunes);
  }

  lemma {:induction false} StepKeepsPruneInv(s: State, step: Step)
    requires PruneInv(s) && Enabled(s, step)
    ensures PruneInv(Apply(s, step))
  {
    StepKeepsPlaced(s, step);
    match step {
      case Begin(block) =>
        BlockPlaces(s, block);
        OffBlocksExtend(s.seen, block, s.era.sent);
      case SendClear =>
        PhasePlaces(s.(miner := Put(s.miner, ClearSnapshots(s.control.at))), s.control.at);
      case SendEnter =>
        OffBlocksPut(s.seen, s.era.sent, EnterOff, s.control.at);
        PrunesPut(s.era, EnterOff, s.prunes);
      case SendExit =>
        OffBlocksPut(s.seen, s.era.sent, ExitOff, |s.seen|);
        PrunesPut(s.era, ExitOff, s.prunes);
      case OfferBlock =>
        if Free(s.era) {
          OffBlocksPut(s.seen, s.era.sent, NewBlock(s.control.at), s.control.at);
          PrunesPut(s.era, NewBlock(s.control.at), s.prunes);
        }
      case EraReceives(eraFound) => EraKeepsPrunes(s, eraFound);
      case _ =>
    }
  }

  // ---- entering and leaving the Off phase ----

  /** Whether pruning is active after these messages. */
  predicate Mode(sent: seq<EraMessage>) {
    sent != [] &&
    var last := sent[|sent| - 1];
    last.EnterOff? || (last.NewBlock? && Mode(sent[..|sent| - 1]))
  }

  ghost predicate SignalInv(s: State) {
    && Placed(s)
    && s.era.taken <= |s.era.sent|
    && s.active == Mode(s.era.sent[..s.era.taken])
    && (s.control.Entering? || s.control.Offering? ==> s.prevPhase == Some(Off))
    && (s.control.Exiting? ==> s.prevPhase != Some(Off))
  }

  /** The signal for the Off phase has been dealt with, and the listener is still in it or about to leave it. */
  predicate InOff(s: State) {
    s.control.Exiting? || (s.prevPhase == Some(Off) && !s.control.Entering?)
  }

  /** A timeout cancels the entry signal while the signals sent so far leave pruning off. */
  predicate LosesEntry(s: State, step: Step) {
    step.Cancel? && s.control.Entering? && !Mode(s.era.sent)
  }

  /** Within the Off phase the signals sent leave pruning active exactly when its entry was not lost. */
  ghost predicate LossInv(s: State, lost: bool) {
    && SignalInv(s)
    && (lost ==> !Mode(s.era.sent))
    && (InOff(s) && !lost ==> Mode(s.era.sent))
  }

  /** An entry is lost by cancelling it and made good by the next one sent. */
  function LostAfter(s: State, step: Step, lost: bool): bool {
    if step.SendEnter? then false else LosesEntry(s, step) || lost
  }

  lemma {:induction false} ModePut(sent: seq<EraMessage>, taken: nat, m: EraMessage)
    requires taken <= |sent|
    ensures (sent + [m])[..taken] == sent[..taken]
    ensures Mode(sent + [m]) <==> m.EnterOff? || (m.NewBlock? && Mode(sent))
  {
    assert (sent + [m])[..|sent + [m]| - 1] == sent;
  }

  lemma {:induction false} PhaseKeepsLoss(s: State, at: nat, lost: bool)
    requires LossInv(s, lost) && (s.control.Idle? || s.control.Clearing?) && at + 1 == |s.seen|
    ensures LossInv(OnPhase(s, at), lost)
  {
    PhasePlaces(s, at);
  }

  lemma {:induction false} BlockKeepsLoss(s: State, block: Block, lost: bool)
    requires LossInv(s, lost) && s.control.Idle?
    ensures LossInv(OnBlock(s, block), lost)
  {
    BlockPlaces(s, block);
    var at := |s.seen|;
    var t := s.(seen := s.seen + [block], prevRound := Some(block.round));
    PhaseKeepsLoss(t, at, lost);
    PhaseKeepsLoss(t.(ticks := Offer(t.ticks, at)), at, lost);
  }

  lemma {:induction false} ModeStep(sent: seq<EraMessage>, k: nat)
    requires k < |sent|
    ensures Mode(sent[..k + 1]) <==> sent[k].EnterOff? || (sent[k].NewBlock? && Mode(sent[..k]))
  {
    assert sent[..k + 1][..k] == sent[..k];
  }

  lemma {:induction false} EraKeepsLoss(s: State, eraFound: bool, lost: bool)
    requires LossInv(s, lost) && s.era.taken < |s.era.sent|
    ensures LossInv(OnEra(s, eraFound), lost)
  {
    EraFrame(s, eraFound);
    ModeStep(s.era.sent, s.era.taken);
  }

  lemma {:induction false} EnterKeepsLoss(s: State, lost: bool)
    requires LossInv(s, lost) && Enabled(s, SendEnter)
    ensures LossInv(Apply(s, SendEnter), false)
  {
    ModePut(s.era.sent, s.era.taken, EnterOff);
  }

  lemma {:induction false} ExitKeepsLoss(s: State, lost: bool)
    requires LossInv(s, lost) && Enabled(s, SendExit)
    ensures LossInv(Apply(s, SendExit), lost)
  {
    ModePut(s.era.sent, s.era.taken, ExitOff);
  }

  lemma {:induction false} OfferKeepsLoss(s: State, lost: bool)
    requires LossInv(s, lost) && Enabled(s, OfferBlock)
    ensures LossInv(Apply(s, OfferBlock), lost)
  {
    ModePut(s.era.sent, s.era.taken, NewBlock(s.control.at));
  }

  lemma {:induction false} StepKeepsLossInv(s: State, step: Step, lost: bool)
    requires LossInv(s, lost) && Enabled(s, step)
    ensures LossInv(Apply(s, step), LostAfter(s, step, lost))
  {
    StepKeepsPlaced(s, step);
    match step {
      case Begin(block) => BlockKeepsLoss(s, block, lost);
      case SendClear => PhaseKeepsLoss(s.(miner := Put(s.miner, ClearSnapshots(s.control.at))), s.control.at, lost);
      case SendEnter => EnterKeepsLoss(s, lost);
      case SendExit => ExitKeepsLoss(s, lost);
      case OfferBlock => OfferKeepsLoss(s, lost);
      case EraReceives(eraFound) => EraKeepsLoss(s, eraFound, lost);
      case _ =>
    }
  }
}
