/**
 The miner's message loop. Each block message runs through the gates that decide whether the
 mined solution is submitted; the snapshot cache and the per-round solution cache spare it from
 reading and mining again.
 */
module MinerTask {
  import opened Common
  import opened Scores
  import opened SubmissionLog
  import opened Submission
  import opened Resume
  import SC = SnapshotCache

  datatype Solution = Solution(round: nat, score: Score, pages: seq<Payload>, winners: nat)

  /** Mining with its feasibility check: a fixed function of targets, voters, round and winners wanted. */
  type MineFn = (SC.TargetPage, seq<SC.VoterPage>, nat, nat) -> Result<Solution, MinerError>

  datatype Config = Config(strategy: Strategy, minSignedBlocks: nat, nPages: nat, mine: MineFn)

  datatype Block = Block(at: SC.AtBlock, phase: Phase, round: nat, desired: nat)

  /** A call may fail, in a way that ends the task or not, or run into its timeout. */
  datatype Answer<+T> = Value(value: T) | Failed(critical: bool) | TimedOut

  /** Everything the outside world answers while one block is processed. */
  datatype Answers = Answers(
    account: Answer<bool>, own: Answer<Option<Metadata>>, fails: SC.Faults, faultIsCritical: bool, miningTimesOut: bool,
    floor: Answer<Option<Score>>, ownAfterMining: Answer<Option<Metadata>>, stillSigned: Answer<bool>, bail: Answer<()>,
    scores: Answer<seq<Score>>, resume: Answer<()>, submit: Answer<()>)

  datatype MinerError =
    | AccountMissing
    | Unanswered(critical: bool)
    | Timeout
    | EmptySnapshot
    | WrongRound
    | WrongPageCount
    | WrongWinnerCount
    | BelowMinimum
    | Panic

  predicate Critical(e: MinerError) {
    e.AccountMissing? || e.Panic? || (e.Unanswered? && e.critical)
  }

  /** What the miner does to the chain: bail, send missing pages, or call for a whole submission. */
  datatype Effect = Bail | Resend(sheets: seq<Sheet>) | Submit(solution: Solution)

  datatype Outcome = Outcome(effects: seq<Effect>, error: Option<MinerError>, outcompeted: bool)

  const QUIET := Outcome([], None, false)

  function Fail(e: MinerError): Outcome {
    Outcome([], Some(e), false)
  }

  function ErrorOf<T>(a: Answer<T>): Option<MinerError> {
    match a
    case Value(_) => None
    case Failed(critical) => Some(Unanswered(critical))
    case TimedOut => Some(Timeout)
  }

  // ---- the decision for one block, given a solution ----

  function Validate(cfg: Config, round: nat, desired: nat, mined: Result<Solution, MinerError>): Result<Solution, MinerError> {
    if mined.Err? then mined
    else if mined.value.round != round then Err(WrongRound)
    else if |mined.value.pages| > cfg.nPages then Err(WrongPageCount)
    else if mined.value.winners != desired then Err(WrongWinnerCount)
    else mined
  }

  /** The competitiveness check, after `before` has been done, and the submission. */
  function Compete(cfg: Config, ans: Answers, s: Solution, before: seq<Effect>): Outcome {
    if !ans.scores.Value? then Outcome(before, ErrorOf(ans.scores), false)
    else if !PassesAll(s.score, ans.scores.value, cfg.strategy) then Outcome(before, None, true)
    else Outcome(before + [Submit(s)], ErrorOf(ans.submit), false)
  }

  /** Bail the old submission, if the phase still allows it, before competing. */
  function Replace(cfg: Config, ans: Answers, s: Solution): Outcome {
    if !ans.stillSigned.Value? then Outcome([], ErrorOf(ans.stillSigned), false)
    else if !ans.stillSigned.value then QUIET
    else if !ans.bail.Value? then Outcome([], ErrorOf(ans.bail), false)
    else Compete(cfg, ans, s, [Bail])
  }

  /** Send the pages the chain lacks; a page the solution does not have is an index out of bounds. */
  function SendMissing(ans: Answers, s: Solution, missing: seq<nat>): Outcome {
    if InRange(missing, |s.pages|) then Outcome([Resend(SheetsFor(s.pages, missing))], ErrorOf(ans.resume), false)
    else Fail(Panic)
  }

  function Decide(cfg: Config, ans: Answers, s: Solution): Outcome {
    if !ans.floor.Value? then Outcome([], ErrorOf(ans.floor), false)
    else if !MeetsMinimum(s.score, ans.floor.value) then Fail(BelowMinimum)
    else if !ans.ownAfterMining.Value? then Outcome([], ErrorOf(ans.ownAfterMining), false)
    else
      match GetSubmission(ans.ownAfterMining.value, cfg.nPages)
      case NotStarted => Compete(cfg, ans, s, [])
      case Done(score) => if PassesStrategy(s.score, score, cfg.strategy) then Replace(cfg, ans, s) else QUIET
      case Incomplete(score, stored) =>
        if score == s.score then SendMissing(ans, s, MissingPages(stored, cfg.nPages)) else Replace(cfg, ans, s)
  }

  /** The checks before any solution is needed; `None` to go on. */
  function Preamble(cfg: Config, block: Block, ans: Answers): Option<Outcome> {
    if ans.account.TimedOut? then Some(QUIET)
    else if !ans.account.Value? then Some(Outcome([], ErrorOf(ans.account), false))
    else if !ans.account.value then Some(Fail(AccountMissing))
    else if block.phase.Snapshot? then None
    else if !block.phase.Signed? || block.phase.left <= cfg.minSignedBlocks then Some(QUIET)
    else if !ans.own.Value? then Some(Outcome([], ErrorOf(ans.own), false))
    else if GetSubmission(ans.own.value, cfg.nPages).Done? then Some(QUIET)
    else None
  }

  // ---- the miner with its caches ----

  datatype Miner = Miner(cache: SC.Cache, cached: Option<Solution>, lastOutcompeted: Option<nat>, counted: seq<nat>)

  const INITIAL := Miner(SC.EMPTY, None, None, [])

  function FetchError(e: SC.Error, ans: Answers): MinerError {
    match e
    case EmptySnapshot => EmptySnapshot
    case RpcFailed => Unanswered(ans.faultIsCritical)
  }

  function Mined(cfg: Config, c: SC.Cache, block: Block, ans: Answers): Result<Solution, MinerError> {
    match SC.Contents(c, cfg.nPages)
    case None => Err(Panic)
    case Some((targets, voters)) =>
      if ans.miningTimesOut then Err(Timeout)
      else Validate(cfg, block.round, block.desired, cfg.mine(targets, Take(voters, cfg.nPages), block.round, block.desired))
  }

  /** The solution to use at this block: the cached one for this round, or a fresh one. */
  function Obtain(cfg: Config, m: Miner, block: Block, ans: Answers): (Miner, Result<Solution, MinerError>)
    requires cfg.nPages > 0
  {
    if m.cached.Some? && m.cached.value.round == block.round then (m, Ok(m.cached.value)) else
      var f := SC.FetchMissing(m.cache, block.at, block.round, cfg.nPages, ans.fails);
      if f.result.Err? then (m.(cache := f.cache), Err(FetchError(f.result.error, ans))) else
        var r := Mined(cfg, f.cache, block, ans);
        (m.(cache := f.cache, cached := if r.Ok? then Some(r.value) else m.cached), r)
  }

  /** The metric counts rounds, not checks. */
  function Count(m: Miner, round: nat): Miner {
    if m.lastOutcompeted == Some(round) then m
    else m.(lastOutcompeted := Some(round), counted := m.counted + [round])
  }

  function Process(cfg: Config, m: Miner, block: Block, ans: Answers): (Miner, Outcome)
    requires cfg.nPages > 0
  {
    match Preamble(cfg, block, ans)
    case Some(o) => (m, o)
    case None =>
      if block.phase.Snapshot? then
        var f := SC.FetchMissingLossy(m.cache, block.at, block.round, cfg.nPages, ans.fails);
        (m.(cache := f.cache), if f.result.Ok? then QUIET else Fail(FetchError(f.result.error, ans)))
      else
        var (n, solved) := Obtain(cfg, m, block, ans);
        if solved.Err? then (n, Fail(solved.error)) else
          var o := Decide(cfg, ans, solved.value);
          (if o.outcompeted then Count(n, block.round) else n, o)
  }

  datatype Message = ProcessBlock(block: Block, ans: Answers) | ClearSnapshots

  function Handle(cfg: Config, m: Miner, msg: Message): (Miner, Outcome)
    requires cfg.nPages > 0
  {
    match msg
    case ProcessBlock(block, ans) => Process(cfg, m, block, ans)
    case ClearSnapshots => (m.(cache := SC.EMPTY, cached := None), QUIET)
  }

  /** The state after some messages, and what came of each message handled; a critical error ends the task. */
  datatype Task = Task(miner: Miner, exited: bool, outcomes: seq<Outcome>)

  function RunTask(cfg: Config, msgs: seq<Message>): (t: Task)
    requires cfg.nPages > 0
    ensures |t.outcomes| <= |msgs|
  {
    if msgs == [] then Task(INITIAL, false, []) else
      var t := RunTask(cfg, msgs[..|msgs| - 1]);
      if t.exited then t else
        var (m, o) := Handle(cfg, t.miner, msgs[|msgs| - 1]);
        Task(m, o.error.Some? && Critical(o.error.value), t.outcomes + [o])
  }

  // ---- the gates ----

  /** What holds of a submitted solution, in terms of what was read for that block. */
  ghost predicate Gated(cfg: Config, block: Block, ans: Answers, s: Solution) {
    && s.round == block.round
    && block.phase.Signed? && block.phase.left > cfg.minSignedBlocks
    && ans.own.Value? && !GetSubmission(ans.own.value, cfg.nPages).Done?
    && Competitive(cfg, ans, s)
  }

  ghost predicate Competitive(cfg: Config, ans: Answers, s: Solution) {
    && ans.floor.Value? && MeetsMinimum(s.score, ans.floor.value)
    && ans.scores.Value? && PassesAll(s.score, ans.scores.value, cfg.strategy)
    && ans.ownAfterMining.Value?
    && match GetSubmission(ans.ownAfterMining.value, cfg.nPages)
       case NotStarted => true
       case Done(score) => PassesStrategy(s.score, score, cfg.strategy)
       case Incomplete(score, _) => score != s.score
  }

  /** A submission comes last, and right after a bail exactly when there is an old one to replace. */
  ghost predicate BailsFirst(cfg: Config, ans: Answers, s: Solution, effects: seq<Effect>) {
    && ans.ownAfterMining.Value?
    && effects == (if GetSubmission(ans.ownAfterMining.value, cfg.nPages).NotStarted? then [] else [Bail]) + [Submit(s)]
  }

  /** There is no old submission, or it can be bailed. */
  ghost predicate Replaceable(cfg: Config, ans: Answers) {
    && ans.ownAfterMining.Value?
    && (GetSubmission(ans.ownAfterMining.value, cfg.nPages).NotStarted? || (ans.stillSigned == Value(true) && ans.bail.Value?))
  }

  /** Both directions: the gates are all there is between a solution and its submission. */
  lemma {:induction false} DecidesByTheGates(cfg: Config, ans: Answers, s: Solution, r: Solution)
    ensures Submit(r) in Decide(cfg, ans, s).effects <==> r == s && Competitive(cfg, ans, s) && Replaceable(cfg, ans)
    ensures Submit(r) in Decide(cfg, ans, s).effects ==> BailsFirst(cfg, ans, s, Decide(cfg, ans, s).effects)
    ensures Decide(cfg, ans, s).error == Some(BelowMinimum) <==> ans.floor.Value? && !MeetsMinimum(s.score, ans.floor.value)
  {
    if Competitive(cfg, ans, s) && Replaceable(cfg, ans) {
      var before := if GetSubmission(ans.ownAfterMining.value, cfg.nPages).NotStarted? then [] else [Bail];
      assert Decide(cfg, ans, s) == Compete(cfg, ans, s, before);
      assert (before + [Submit(s)])[|before|] == Submit(s);
    }
  }

  /** Our submission of the same score is on chain with some pages missing, and nothing keeps us from going on. */
  ghost predicate CanResume(cfg: Config, ans: Answers, s: Solution, bitmap: seq<bool>) {
    && ans.floor.Value? && MeetsMinimum(s.score, ans.floor.value)
    && ans.ownAfterMining == Value(Some(Metadata(s.score, bitmap)))
    && |StoredPages(bitmap)| != cfg.nPages
  }

  /**
   Resuming sends exactly the pages the bitmap lacks, each with the cached solution's page of that
   number. It runs out of bounds exactly when a missing page lies beyond the solution's own pages.
   */
  lemma {:induction false} ResendsTheComplement(cfg: Config, ans: Answers, s: Solution, bitmap: seq<bool>)
    requires CanResume(cfg, ans, s, bitmap)
    ensures var o := Decide(cfg, ans, s);
            var missing := Below(cfg.nPages) - StoredPages(bitmap);
            if missing <= Below(|s.pages|) then
              && |o.effects| == 1 && o.effects[0].Resend?
              && PagesOf(o.effects[0].sheets) == missing && DistinctPages(o.effects[0].sheets)
              && Originals(s.pages, o.effects[0].sheets)
            else o == Fail(Panic)
  {
    var pages := MissingPages(StoredPages(bitmap), cfg.nPages);
    MissingIsComplement(StoredPages(bitmap), cfg.nPages);
    InRangeIffBelow(pages, |s.pages|);
    SendsThePages(ans, s, pages);
  }

  lemma {:induction false} InRangeIffBelow(pages: seq<nat>, n: nat)
    ensures InRange(pages, n) <==> Elements(pages) <= Below(n)
  {
    if Elements(pages) <= Below(n) {
      forall i | 0 <= i < |pages| ensures pages[i] < n {
        assert pages[i] in Elements(pages);
      }
    }
  }

  lemma {:induction false} SendsThePages(ans: Answers, s: Solution, pages: seq<nat>)
    requires Distinct(pages)
    ensures var o := SendMissing(ans, s, pages);
            if InRange(pages, |s.pages|) then
              && |o.effects| == 1 && o.effects[0].Resend?
              && PagesOf(o.effects[0].sheets) == Elements(pages) && DistinctPages(o.effects[0].sheets)
              && Originals(s.pages, o.effects[0].sheets)
            else o == Fail(Panic)
  {
    if InRange(pages, |s.pages|) {
      SheetsForPages(s.pages, pages);
      SentAreOriginals(s.pages, pages, SheetsFor(s.pages, pages));
    }
  }

  /** The failing side: a solution of one page cannot fill in the second one, which the chain lacks. */
  lemma {:induction false} ShortSolutionRunsOut() returns (cfg: Config, ans: Answers, s: Solution)
    ensures |s.pages| == 1 && CanResume(cfg, ans, s, [true, false])
    ensures Decide(cfg, ans, s) == Fail(Panic)
  {
    cfg := Config(Always, 0, 2, (targets, voters, round, desired) => Err(Timeout));
    s := Solution(0, Score(0, 0, 0), [Content(1)], 0);
    ans := Answers(Value(true), Value(None), read => false, false, false, Value(None), Value(Some(Metadata(s.score, [true, false]))),
                   Value(true), Value(()), Value([]), Value(()), Value(()));
    assert StoredPages([true, false]) == {0};
    ResendsTheComplement(cfg, ans, s, [true, false]);
    assert 1 in Below(2) - StoredPages([true, false]) && 1 !in Below(1);
  }

  /** At this block the miner has no solution of the round, mines `s`, finds it in order and caches it. */
  ghost predicate Mines(cfg: Config, m: Miner, block: Block, ans: Answers, s: Solution)
    requires cfg.nPages > 0
  {
    && Preamble(cfg, block, ans).None? && block.phase.Signed?
    && (m.cached.None? || m.cached.value.round != block.round)
    && Obtain(cfg, m, block, ans).1 == Ok(s)
    && s.round == block.round && |s.pages| <= cfg.nPages && s.winners == block.desired
    && Process(cfg, m, block, ans).0.cached == Some(s)
  }

  ghost predicate MinedAt(cfg: Config, msgs: seq<Message>, j: nat, s: Solution)
    requires cfg.nPages > 0
  {
    && j < |msgs| && msgs[j].ProcessBlock? && !RunTask(cfg, msgs[..j]).exited
    && Mines(cfg, RunTask(cfg, msgs[..j]).miner, msgs[j].block, msgs[j].ans, s)
  }

  /** After each message from the `j`-th on, `s` is the cached solution. */
  ghost predicate KeptSince(cfg: Config, msgs: seq<Message>, j: nat, s: Solution)
    requires cfg.nPages > 0
  {
    forall k :: j < k <= |msgs| ==> RunTask(cfg, msgs[..k]).miner.cached == Some(s)
  }

  /** The solution was mined and passed its checks at one of these blocks, and has been kept since. */
  ghost predicate Checked(cfg: Config, msgs: seq<Message>, s: Solution)
    requires cfg.nPages > 0
  {
    exists j: nat :: MinedAt(cfg, msgs, j, s) && KeptSince(cfg, msgs, j, s)
  }

  lemma {:induction false} CheckedLater(cfg: Config, msgs: seq<Message>, msg: Message, s: Solution)
    requires cfg.nPages > 0 && Checked(cfg, msgs, s) && RunTask(cfg, msgs + [msg]).miner.cached == Some(s)
    ensures Checked(cfg, msgs + [msg], s)
  {
    var j: nat :| MinedAt(cfg, msgs, j, s) && KeptSince(cfg, msgs, j, s);
    var now := msgs + [msg];
    assert now[..j] == msgs[..j] && now[j] == msgs[j];
    forall k | j < k <= |now| ensures RunTask(cfg, now[..k]).miner.cached == Some(s) {
      assert now[..k] == if k <= |msgs| then msgs[..k] else now;
    }
    assert MinedAt(cfg, now, j, s) && KeptSince(cfg, now, j, s);
  }

  lemma {:induction false} CheckedNow(cfg: Config, msgs: seq<Message>, block: Block, ans: Answers, s: Solution)
    requires cfg.nPages > 0 && !RunTask(cfg, msgs).exited && Mines(cfg, RunTask(cfg, msgs).miner, block, ans, s)
    ensures Checked(cfg, msgs + [ProcessBlock(block, ans)], s)
  {
    var now := msgs + [ProcessBlock(block, ans)];
    assert now[..|msgs|] == msgs && now[..|now|] == now;
    assert MinedAt(cfg, now, |msgs|, s) && KeptSince(cfg, now, |msgs|, s);
  }

  /** What a block does to the cached solution. */
  lemma {:induction false} ProcessCaches(cfg: Config, m: Miner, block: Block, ans: Answers)
    requires cfg.nPages > 0
    ensures var n := Process(cfg, m, block, ans).0;
            && (n.cached == m.cached || (n.cached.Some? && Mines(cfg, m, block, ans, n.cached.value)))
            && (Preamble(cfg, block, ans).None? && block.phase.Signed? && Obtain(cfg, m, block, ans).1.Ok? ==>
                  n.cached == Some(Obtain(cfg, m, block, ans).1.value) && n.cached.value.round == block.round)
  {
  }

  lemma {:induction false} HandleIsChecked(cfg: Config, msgs: seq<Message>, msg: Message)
    requires cfg.nPages > 0 && !RunTask(cfg, msgs).exited
    requires var m := RunTask(cfg, msgs).miner; m.cached.Some? ==> Checked(cfg, msgs, m.cached.value)
    ensures var n := RunTask(cfg, msgs + [msg]).miner; n.cached.Some? ==> Checked(cfg, msgs + [msg], n.cached.value)
  {
    var m, n := RunTask(cfg, msgs).miner, RunTask(cfg, msgs + [msg]).miner;
    assert (msgs + [msg])[..|msgs|] == msgs;
    if msg.ProcessBlock? && n.cached.Some? {
      ProcessCaches(cfg, m, msg.block, msg.ans);
      if n.cached == m.cached {
        CheckedLater(cfg, msgs, msg, n.cached.value);
      } else {
        CheckedNow(cfg, msgs, msg.block, msg.ans, n.cached.value);
      }
    }
  }

  /** The submission is gated by the last of these messages, was mined and checked at one of them, and bails first. */
  ghost predicate Proper(cfg: Config, msgs: seq<Message>, s: Solution, effects: seq<Effect>)
    requires cfg.nPages > 0
  {
    && msgs != []
    && var msg := msgs[|msgs| - 1];
    && msg.ProcessBlock?
    && Gated(cfg, msg.block, msg.ans, s)
    && Checked(cfg, msgs, s)
    && BailsFirst(cfg, msg.ans, s, effects)
  }

  lemma {:induction false} ProcessIsGated(cfg: Config, m: Miner, block: Block, ans: Answers, s: Solution)
    requires cfg.nPages > 0 && Submit(s) in Process(cfg, m, block, ans).1.effects
    ensures Gated(cfg, block, ans, s) && BailsFirst(cfg, ans, s, Process(cfg, m, block, ans).1.effects)
    ensures Process(cfg, m, block, ans).0.cached == Some(s)
  {
    ProcessCaches(cfg, m, block, ans);
    DecidesByTheGates(cfg, ans, Obtain(cfg, m, block, ans).1.value, s);
  }

  lemma {:induction false} HandleIsGated(cfg: Config, msgs: seq<Message>, msg: Message, s: Solution)
    requires cfg.nPages > 0 && !RunTask(cfg, msgs).exited
    requires var m := RunTask(cfg, msgs).miner; m.cached.Some? ==> Checked(cfg, msgs, m.cached.value)
    requires Submit(s) in Handle(cfg, RunTask(cfg, msgs).miner, msg).1.effects
    ensures Proper(cfg, msgs + [msg], s, Handle(cfg, RunTask(cfg, msgs).miner, msg).1.effects)
  {
    assert (msgs + [msg])[..|msgs|] == msgs;
    ProcessIsGated(cfg, RunTask(cfg, msgs).miner, msg.block, msg.ans, s);
    HandleIsChecked(cfg, msgs, msg);
  }

  lemma {:induction false} RunIsChecked(cfg: Config, msgs: seq<Message>)
    requires cfg.nPages > 0
    ensures var t := RunTask(cfg, msgs);
            && (!t.exited ==> |t.outcomes| == |msgs|)
            && (!t.exited && t.miner.cached.Some? ==> Checked(cfg, msgs, t.miner.cached.value))
  {
    if msgs != [] {
      var init, msg := msgs[..|msgs| - 1], msgs[|msgs| - 1];
      RunIsChecked(cfg, init);
      assert msgs == init + [msg];
      if !RunTask(cfg, init).exited {
        HandleIsChecked(cfg, init, msg);
      }
    }
  }

  /**
   Whatever messages arrive, in whatever order and however many are lost on the way: a solution
   submitted while handling a message carries the message's round, was mined and passed its checks
   at that message or an earlier one of the round and was kept since, beats the floor and passes
   the strategy against every score read, and an old submission was bailed first.
   */
  lemma {:induction false} EverySubmissionIsGated(cfg: Config, msgs: seq<Message>, i: nat, s: Solution)
    requires cfg.nPages > 0
    requires i < |RunTask(cfg, msgs).outcomes| && Submit(s) in RunTask(cfg, msgs).outcomes[i].effects
    ensures Proper(cfg, msgs[..i + 1], s, RunTask(cfg, msgs).outcomes[i].effects)
  {
    var init, msg := msgs[..|msgs| - 1], msgs[|msgs| - 1];
    assert msgs == init + [msg];
    LastOutcome(cfg, init, msg);
    RunIsChecked(cfg, init);
    if i < |RunTask(cfg, init).outcomes| {
      EverySubmissionIsGated(cfg, init, i, s);
      assert init[..i + 1] == msgs[..i + 1];
    } else {
      HandleIsGated(cfg, init, msg, s);
      assert msgs[..i + 1] == msgs;
    }
  }

  lemma {:induction false} LastOutcome(cfg: Config, msgs: seq<Message>, msg: Message)
    requires cfg.nPages > 0
    ensures var t := RunTask(cfg, msgs);
            RunTask(cfg, msgs + [msg]).outcomes == if t.exited then t.outcomes else t.outcomes + [Handle(cfg, t.miner, msg).1]
  {
    assert (msgs + [msg])[..|msgs|] == msgs;
  }

  // ---- the caches refine re-reading and re-mining ----

  /** What the chain holds for a round: the snapshot and the number of winners asked for. */
  datatype RoundData = RoundData(targets: SC.TargetPage, voters: seq<SC.VoterPage>, desired: nat)

  type Truth = nat -> RoundData

  /** A block shows nothing but the data of its round. */
  ghost predicate Faithful(cfg: Config, truth: Truth, h: SC.Hashing, block: Block)
    requires cfg.nPages > 0
  {
    && SC.Consistent(h, block.at)
    && block.desired == truth(block.round).desired
    && var direct := SC.Direct(block.at, block.round, cfg.nPages);
       direct.Some? ==> direct.value == (truth(block.round).targets, truth(block.round).voters)
  }

  /** Mine the data of a round, with no cache in between. */
  function Remine(cfg: Config, truth: Truth, round: nat): Result<Solution, MinerError> {
    var d := truth(round);
    Validate(cfg, round, d.desired, cfg.mine(d.targets, Take(d.voters, cfg.nPages), round, d.desired))
  }

  /** The caches hold nothing the simple program would not produce itself. */
  ghost predicate Exact(cfg: Config, truth: Truth, h: SC.Hashing, m: Miner) {
    && SC.Sound(h, m.cache, cfg.nPages)
    && (m.cached.Some? ==> Remine(cfg, truth, m.cached.value.round) == Ok(m.cached.value))
  }

  /** The snapshot of the round is on chain, no read is refused and mining finishes in time. */
  ghost predicate Undisturbed(cfg: Config, block: Block, ans: Answers)
    requires cfg.nPages > 0
  {
    SC.Direct(block.at, block.round, cfg.nPages).Some? && !SC.Refused(ans.fails) && !ans.miningTimesOut
  }

  lemma {:induction false} ObtainIsExact(cfg: Config, truth: Truth, h: SC.Hashing, m: Miner, block: Block, ans: Answers)
    requires cfg.nPages > 0 && SC.CollisionFree(h) && Faithful(cfg, truth, h, block) && Exact(cfg, truth, h, m)
    ensures var (n, solved) := Obtain(cfg, m, block, ans);
            && Exact(cfg, truth, h, n)
            && (solved.Ok? || Undisturbed(cfg, block, ans) ==> solved == Remine(cfg, truth, block.round))
  {
    SC.FetchRefinesDirect(h, m.cache, block.at, block.round, cfg.nPages, ans.fails);
  }

  /** The program without caches: read and mine at every signed block. */
  function Simple(cfg: Config, truth: Truth, block: Block, ans: Answers): Outcome {
    match Preamble(cfg, block, ans)
    case Some(o) => o
    case None =>
      if block.phase.Snapshot? then QUIET else
        match Remine(cfg, truth, block.round)
        case Err(e) => Fail(e)
        case Ok(s) => Decide(cfg, ans, s)
  }

  /**
   From any state the caches can be in: undisturbed, the miner does at this block what it would
   do if it had read and mined everything afresh; disturbed or not, anything it submits is what
   re-mining gives.
   */
  lemma {:induction false} CachesRefineRemining(cfg: Config, truth: Truth, h: SC.Hashing, m: Miner, block: Block, ans: Answers)
    requires cfg.nPages > 0 && SC.CollisionFree(h) && Faithful(cfg, truth, h, block) && Exact(cfg, truth, h, m)
    ensures var (n, o) := Process(cfg, m, block, ans);
            && Exact(cfg, truth, h, n)
            && (Undisturbed(cfg, block, ans) ==> o == Simple(cfg, truth, block, ans))
            && (forall s :: Submit(s) in o.effects ==> Remine(cfg, truth, block.round) == Ok(s))
  {
    ObtainIsExact(cfg, truth, h, m, block, ans);
    SC.LossyFetchKeepsSound(h, m.cache, block.at, block.round, cfg.nPages, ans.fails);
    var o := Process(cfg, m, block, ans).1;
    forall s | Submit(s) in o.effects ensures Remine(cfg, truth, block.round) == Ok(s) {
      DecidesByTheGates(cfg, ans, Obtain(cfg, m, block, ans).1.value, s);
    }
  }

  /** The account exists, the signed phase lasts and our submission is not finished. */
  ghost predicate Ready(cfg: Config, block: Block, ans: Answers) {
    && ans.account == Value(true)
    && block.phase.Signed? && block.phase.left > cfg.minSignedBlocks
    && ans.own.Value? && !GetSubmission(ans.own.value, cfg.nPages).Done?
  }

  lemma {:induction false} SimpleSubmitsByTheGates(cfg: Config, truth: Truth, block: Block, ans: Answers, s: Solution)
    ensures Submit(s) in Simple(cfg, truth, block, ans).effects <==>
      && Ready(cfg, block, ans)
      && Remine(cfg, truth, block.round) == Ok(s)
      && Competitive(cfg, ans, s) && Replaceable(cfg, ans)
  {
    if Remine(cfg, truth, block.round).Ok? {
      DecidesByTheGates(cfg, ans, Remine(cfg, truth, block.round).value, s);
    }
  }

  ghost predicate AllFaithful(cfg: Config, truth: Truth, h: SC.Hashing, msgs: seq<Message>)
    requires cfg.nPages > 0
  {
    forall i :: 0 <= i < |msgs| && msgs[i].ProcessBlock? ==> Faithful(cfg, truth, h, msgs[i].block)
  }

  lemma {:induction false} RunIsExact(cfg: Config, truth: Truth, h: SC.Hashing, msgs: seq<Message>)
    requires cfg.nPages > 0 && SC.CollisionFree(h) && AllFaithful(cfg, truth, h, msgs)
    ensures Exact(cfg, truth, h, RunTask(cfg, msgs).miner)
  {
    if msgs != [] {
      var init, msg := msgs[..|msgs| - 1], msgs[|msgs| - 1];
      RunIsExact(cfg, truth, h, init);
      if msg.ProcessBlock? {
        CachesRefineRemining(cfg, truth, h, RunTask(cfg, init).miner, msg.block, msg.ans);
      }
    }
  }

  /** Over whole runs: every undisturbed block is handled as the program without caches would handle it. */
  lemma {:induction false} RunsRefineTheSimpleProgram(cfg: Config, truth: Truth, h: SC.Hashing, msgs: seq<Message>, i: nat)
    requires cfg.nPages > 0 && SC.CollisionFree(h) && AllFaithful(cfg, truth, h, msgs)
    requires i < |RunTask(cfg, msgs).outcomes| && msgs[i].ProcessBlock?
    ensures Undisturbed(cfg, msgs[i].block, msgs[i].ans) ==>
      RunTask(cfg, msgs).outcomes[i] == Simple(cfg, truth, msgs[i].block, msgs[i].ans)
    ensures forall s :: Submit(s) in RunTask(cfg, msgs).outcomes[i].effects ==>
      Remine(cfg, truth, msgs[i].block.round) == Ok(s)
  {
    var init, msg := msgs[..|msgs| - 1], msgs[|msgs| - 1];
    var t := RunTask(cfg, init);
    if i < |t.outcomes| {
      assert init[i] == msgs[i];
      RunsRefineTheSimpleProgram(cfg, truth, h, init, i);
    } else {
      RunIsChecked(cfg, init);
      RunIsExact(cfg, truth, h, init);
      CachesRefineRemining(cfg, truth, h, t.miner, msg.block, msg.ans);
    }
  }

  /**
   At an undisturbed block of any run a solution is submitted if and only if re-mining the round
   gives it and it passes every gate.
   */
  lemma {:induction false} SubmittedIffGated(
    cfg: Config, truth: Truth, h: SC.Hashing, msgs: seq<Message>, i: nat, s: Solution)
    requires cfg.nPages > 0 && SC.CollisionFree(h) && AllFaithful(cfg, truth, h, msgs)
    requires i < |RunTask(cfg, msgs).outcomes| && msgs[i].ProcessBlock? && Undisturbed(cfg, msgs[i].block, msgs[i].ans)
    ensures Submit(s) in RunTask(cfg, msgs).outcomes[i].effects <==>
      && Ready(cfg, msgs[i].block, msgs[i].ans)
      && Remine(cfg, truth, msgs[i].block.round) == Ok(s)
      && Competitive(cfg, msgs[i].ans, s) && Replaceable(cfg, msgs[i].ans)
  {
    RunsRefineTheSimpleProgram(cfg, truth, h, msgs, i);
    SimpleSubmitsByTheGates(cfg, truth, msgs[i].block, msgs[i].ans, s);
  }

  // ---- the metric of outcompeted rounds ----

  ghost predicate RoundsAscend(msgs: seq<Message>) {
    forall i, j :: 0 <= i < j < |msgs| && msgs[i].ProcessBlock? && msgs[j].ProcessBlock? ==> msgs[i].block.round <= msgs[j].block.round
  }

  ghost predicate CountedOnce(m: Miner, msgs: seq<Message>) {
    && (forall i, j :: 0 <= i < j < |m.counted| ==> m.counted[i] < m.counted[j])
    && (m.counted == [] ==> m.lastOutcompeted == None)
    && (m.counted != [] ==> m.lastOutcompeted == Some(m.counted[|m.counted| - 1]))
    && (m.counted != [] ==> exists j :: 0 <= j < |msgs| && msgs[j].ProcessBlock? && m.counted[|m.counted| - 1] == msgs[j].block.round)
  }

  lemma {:induction false} HandleCounts(cfg: Config, m: Miner, msg: Message)
    requires cfg.nPages > 0
    ensures var n := Handle(cfg, m, msg).0;
            || (n.counted == m.counted && n.lastOutcompeted == m.lastOutcompeted)
            || (msg.ProcessBlock? && m.lastOutcompeted != Some(msg.block.round)
                && n.counted == m.counted + [msg.block.round] && n.lastOutcompeted == Some(msg.block.round))
  {
  }

  lemma {:induction false} CountingStep(m: Miner, n: Miner, init: seq<Message>, msg: Message)
    requires RoundsAscend(init + [msg]) && CountedOnce(m, init)
    requires || (n.counted == m.counted && n.lastOutcompeted == m.lastOutcompeted)
             || (msg.ProcessBlock? && m.lastOutcompeted != Some(msg.block.round)
                 && n.counted == m.counted + [msg.block.round] && n.lastOutcompeted == Some(msg.block.round))
    ensures CountedOnce(n, init + [msg])
  {
    var msgs := init + [msg];
    assert msgs[|init|] == msg;
    if m.counted != [] {
      var j :| 0 <= j < |init| && init[j].ProcessBlock? && m.counted[|m.counted| - 1] == init[j].block.round;
      assert msgs[j] == init[j];
    }
  }

  /** As long as rounds do not go back, no round is counted twice. */
  lemma {:induction false} OutcompetedRoundsCountOnce(cfg: Config, msgs: seq<Message>)
    requires cfg.nPages > 0 && RoundsAscend(msgs)
    ensures CountedOnce(RunTask(cfg, msgs).miner, msgs)
  {
    if msgs != [] {
      var init, msg := msgs[..|msgs| - 1], msgs[|msgs| - 1];
      assert msgs == init + [msg];
      OutcompetedRoundsCountOnce(cfg, init);
      var m := RunTask(cfg, init).miner;
      HandleCounts(cfg, m, msg);
      CountingStep(m, RunTask(cfg, msgs).miner, init, msg);
    }
  }

  // ---- the loop and its variables ----

  /** Fetch what the snapshot object lacks, mine it and check the result. */
  method MineAndValidate(cfg: Config, snapshot: SC.Snapshot, block: Block, ans: Answers) returns (r: Result<Solution, MinerError>)
    requires snapshot.nPages == cfg.nPages > 0 && snapshot.Bounded()
    modifies snapshot
    ensures snapshot.Bounded()
    ensures var f := SC.FetchMissing(old(snapshot.Value()), block.at, block.round, cfg.nPages, ans.fails);
            && snapshot.Value() == f.cache
            && r == if f.result.Err? then Err(FetchError(f.result.error, ans)) else Mined(cfg, f.cache, block, ans)
  {
    var fetched := snapshot.FetchMissingSnapshots(block.at, block.round, ans.fails);
    if fetched.Err? {
      return Err(FetchError(fetched.error, ans));
    }
    var contents := snapshot.Get();
    if contents.None? {
      return Err(Panic);
    }
    if ans.miningTimesOut {
      return Err(Timeout);
    }
    var (targets, voters) := contents.value;
    var mined := cfg.mine(targets, Take(voters, cfg.nPages), block.round, block.desired);
    if mined.Err? {
      return mined;
    }
    if mined.value.round != block.round {
      return Err(WrongRound);
    }
    if |mined.value.pages| > cfg.nPages {
      return Err(WrongPageCount);
    }
    if mined.value.winners != block.desired {
      return Err(WrongWinnerCount);
    }
    r := mined;
  }

  method HandleBlock(cfg: Config, snapshot: SC.Snapshot, cached: Option<Solution>, last: Option<nat>, counted: seq<nat>,
                     block: Block, ans: Answers)
    returns (solution: Option<Solution>, outcompeted: Option<nat>, metric: seq<nat>, o: Outcome)
    requires snapshot.nPages == cfg.nPages > 0 && snapshot.Bounded()
    modifies snapshot
    ensures snapshot.Bounded()
    ensures (Miner(snapshot.Value(), solution, outcompeted, metric), o)
         == Process(cfg, Miner(old(snapshot.Value()), cached, last, counted), block, ans)
  {
    solution, outcompeted, metric := cached, last, counted;
    var early := Preamble(cfg, block, ans);
    if early.Some? {
      o := early.value;
      return;
    }
    if block.phase.Snapshot? {
      var fetched := snapshot.FetchMissingSnapshotsLossy(block.at, block.round, ans.fails);
      o := if fetched.Ok? then QUIET else Fail(FetchError(fetched.error, ans));
      return;
    }
    if solution.None? || solution.value.round != block.round {
      var r := MineAndValidate(cfg, snapshot, block, ans);
      if r.Err? {
        o := Fail(r.error);
        return;
      }
      solution := Some(r.value);
    }
    o := Decide(cfg, ans, solution.value);
    if o.outcompeted && outcompeted != Some(block.round) {
      outcompeted := Some(block.round);
      metric := metric + [block.round];
    }
  }

  /** Handle messages until one of them ends the task. */
  method RunMiner(cfg: Config, msgs: seq<Message>) returns (outcomes: seq<Outcome>, exited: bool)
    requires cfg.nPages > 0
    ensures outcomes == RunTask(cfg, msgs).outcomes && exited == RunTask(cfg, msgs).exited
  {
    var snapshot := new SC.Snapshot(cfg.nPages);
    var cached: Option<Solution> := None;
    var last: Option<nat> := None;
    var counted: seq<nat> := [];
    outcomes, exited := [], false;
    for i := 0 to |msgs|
      invariant snapshot.nPages == cfg.nPages && snapshot.Bounded()
      invariant fresh(snapshot)
      invariant RunTask(cfg, msgs[..i]) == Task(Miner(snapshot.Value(), cached, last, counted), false, outcomes) && !exited
    {
      assert msgs[..i + 1][..i] == msgs[..i];
      var o := QUIET;
      match msgs[i] {
        case ProcessBlock(block, ans) =>
          cached, last, counted, o := HandleBlock(cfg, snapshot, cached, last, counted, block, ans);
        case ClearSnapshots =>
          snapshot.Reset();
          cached := None;
      }
      outcomes := outcomes + [o];
      if o.error.Some? && Critical(o.error.value) {
        exited := true;
        ExitedStays(cfg, msgs, i + 1);
        return;
      }
    }
    assert msgs[..|msgs|] == msgs;
  }

  lemma {:induction false} ExitedStays(cfg: Config, msgs: seq<Message>, i: nat)
    requires cfg.nPages > 0 && i <= |msgs| && RunTask(cfg, msgs[..i]).exited
    ensures RunTask(cfg, msgs) == RunTask(cfg, msgs[..i])
  {
    if i == |msgs| {
      assert msgs[..i] == msgs;
    } else {
      var init := msgs[..|msgs| - 1];
      assert init[..i] == msgs[..i];
      ExitedStays(cfg, init, i);
    }
  }
}
