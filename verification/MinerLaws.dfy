/**
 What the miner does with a block, read off the answers it got: each outcome with the exact
 conditions under which it comes, and what the two caches and the message loop are good for.
 */
module MinerLaws {
  import opened Common
  import opened Scores
  import opened SubmissionLog
  import opened Submission
  import opened Resume
  import opened MinerTask
  import SC = SnapshotCache

  // ---- the answers, in words ----

  /** No floor is set, or the score is lexicographically better than it. */
  ghost predicate FloorMet(ans: Answers, s: Solution) {
    ans.floor.Value? && (ans.floor.value.Some? ==> Beats(s.score, ans.floor.value.value))
  }

  ghost predicate HasSubmission(own: Answer<Option<Metadata>>) {
    own.Value? && own.value.Some?
  }

  /** We have a submission with every page stored. */
  ghost predicate Finished(cfg: Config, own: Answer<Option<Metadata>>) {
    HasSubmission(own) && |StoredPages(own.value.value.bitmap)| == cfg.nPages
  }

  ghost predicate Unfinished(cfg: Config, own: Answer<Option<Metadata>>) {
    HasSubmission(own) && |StoredPages(own.value.value.bitmap)| != cfg.nPages
  }

  /** Our old submission is to be replaced: it is finished and beaten, or unfinished with another score. */
  ghost predicate ReplacementDue(cfg: Config, ans: Answers, s: Solution) {
    && FloorMet(ans, s)
    && (|| (Finished(cfg, ans.ownAfterMining) && PassesStrategy(s.score, ans.ownAfterMining.value.value.score, cfg.strategy))
        || (Unfinished(cfg, ans.ownAfterMining) && ans.ownAfterMining.value.value.score != s.score))
  }

  ghost predicate BailDue(cfg: Config, ans: Answers, s: Solution) {
    ReplacementDue(cfg, ans, s) && ans.stillSigned == Value(true) && ans.bail.Value?
  }

  /** Our unfinished submission has the score of this solution. */
  ghost predicate ResumeDue(cfg: Config, ans: Answers, s: Solution) {
    FloorMet(ans, s) && Unfinished(cfg, ans.ownAfterMining) && ans.ownAfterMining.value.value.score == s.score
  }

  /** The registered scores are looked at. */
  ghost predicate CompetitionDue(cfg: Config, ans: Answers, s: Solution) {
    (FloorMet(ans, s) && ans.ownAfterMining == Value(None)) || BailDue(cfg, ans, s)
  }

  ghost predicate Beaten(cfg: Config, ans: Answers, s: Solution) {
    ans.scores.Value? && exists i :: 0 <= i < |ans.scores.value| && !PassesStrategy(s.score, ans.scores.value[i], cfg.strategy)
  }

  ghost predicate SubmitDue(cfg: Config, ans: Answers, s: Solution) {
    CompetitionDue(cfg, ans, s) && ans.scores.Value? && !Beaten(cfg, ans, s)
  }

  /** A failed call is reported as failed, one out of time as a timeout, an answered one not at all. */
  ghost predicate Reports<T>(a: Answer<T>, e: Option<MinerError>) {
    match a
    case Value(_) => e == None
    case Failed(critical) => e == Some(Unanswered(critical))
    case TimedOut => e == Some(Timeout)
  }

  lemma {:induction false} FloorIsLexicographic(ans: Answers, s: Solution)
    ensures FloorMet(ans, s) <==> ans.floor.Value? && MeetsMinimum(s.score, ans.floor.value)
  {
    if ans.floor.Value? && ans.floor.value.Some? {
      StrictBetterIsLexicographic(s.score, ans.floor.value.value, s.score);
    }
  }

  // ---- the decision ----

  /** Exactly what is done to the chain: a bail when due, then a submission when due, or missing pages, or nothing. */
  lemma {:induction false} EffectsAreExact(cfg: Config, ans: Answers, s: Solution)
    ensures var effects := Decide(cfg, ans, s).effects;
            && (Bail in effects <==> BailDue(cfg, ans, s))
            && (forall r :: Submit(r) in effects <==> r == s && SubmitDue(cfg, ans, s))
            && (!ResumeDue(cfg, ans, s) ==>
                  effects == (if BailDue(cfg, ans, s) then [Bail] else []) + (if SubmitDue(cfg, ans, s) then [Submit(s)] else []))
            && (ResumeDue(cfg, ans, s) ==> effects == [] || (|effects| == 1 && effects[0].Resend?))
  {
    FloorIsLexicographic(ans, s);
  }

  /** A solution counts as outcompeted exactly when the scores are looked at and one of them is not beaten. */
  lemma {:induction false} OutcompetedIsExact(cfg: Config, ans: Answers, s: Solution)
    ensures Decide(cfg, ans, s).outcompeted <==> CompetitionDue(cfg, ans, s) && Beaten(cfg, ans, s)
  {
    FloorIsLexicographic(ans, s);
  }

  /** Which answer an error comes from; everything else ends without one. */
  lemma {:induction false} ErrorsAreExact(cfg: Config, ans: Answers, s: Solution)
    ensures var e := Decide(cfg, ans, s).error;
            && (!ans.floor.Value? ==> Reports(ans.floor, e))
            && (e == Some(BelowMinimum) <==> ans.floor.Value? && !FloorMet(ans, s))
            && (FloorMet(ans, s) && !ans.ownAfterMining.Value? ==> Reports(ans.ownAfterMining, e))
            && (FloorMet(ans, s) && Finished(cfg, ans.ownAfterMining) && !ReplacementDue(cfg, ans, s) ==> e == None)
            && (ReplacementDue(cfg, ans, s) && !ans.stillSigned.Value? ==> Reports(ans.stillSigned, e))
            && (ReplacementDue(cfg, ans, s) && ans.stillSigned == Value(false) ==> e == None)
            && (ReplacementDue(cfg, ans, s) && ans.stillSigned == Value(true) && !ans.bail.Value? ==> Reports(ans.bail, e))
            && (CompetitionDue(cfg, ans, s) && !ans.scores.Value? ==> Reports(ans.scores, e))
            && (CompetitionDue(cfg, ans, s) && Beaten(cfg, ans, s) ==> e == None)
            && (SubmitDue(cfg, ans, s) ==> Reports(ans.submit, e))
            && (ResumeDue(cfg, ans, s) ==> Reports(ans.resume, e) || e == Some(Panic))
  {
    FloorIsLexicographic(ans, s);
  }

  /** A finished submission that the new score does not beat is left alone. */
  lemma {:induction false} UnbeatenSubmissionStays(cfg: Config, ans: Answers, s: Solution)
    requires FloorMet(ans, s) && Finished(cfg, ans.ownAfterMining)
    requires !PassesStrategy(s.score, ans.ownAfterMining.value.value.score, cfg.strategy)
    ensures Decide(cfg, ans, s) == Outcome([], None, false)
  {
    EffectsAreExact(cfg, ans, s);
    OutcompetedIsExact(cfg, ans, s);
    ErrorsAreExact(cfg, ans, s);
  }

  // ---- before the decision ----

  /** Account, phase and own submission allow mining at this block. */
  ghost predicate MiningDue(cfg: Config, block: Block, ans: Answers) {
    && ans.account == Value(true)
    && block.phase.Signed? && block.phase.left > cfg.minSignedBlocks
    && ans.own.Value? && !Finished(cfg, ans.own)
  }

  ghost predicate FetchDue(block: Block, ans: Answers) {
    ans.account == Value(true) && block.phase.Snapshot?
  }

  /** A block that calls neither for fetching nor for mining changes nothing; this is what it reports. */
  lemma {:induction false} IdleBlocks(cfg: Config, m: Miner, block: Block, ans: Answers)
    requires cfg.nPages > 0 && !MiningDue(cfg, block, ans) && !FetchDue(block, ans)
    ensures var (n, o) := Process(cfg, m, block, ans);
            && n == m && o.effects == [] && !o.outcompeted
            && (ans.account.Failed? ==> Reports(ans.account, o.error))
            && (ans.account == Value(false) ==> o.error == Some(AccountMissing))
            && (ans.account == Value(true) && block.phase.Signed? && block.phase.left > cfg.minSignedBlocks ==>
                  Reports(ans.own, o.error))
            && (o.error.Some? ==> ans.account != TimedOut)
            && (o.error.Some? && ans.account == Value(true) ==>
                  block.phase.Signed? && block.phase.left > cfg.minSignedBlocks)
  {
  }

  /** A mining block obtains a solution and decides by it, or reports why there is none. */
  lemma {:induction false} MiningBlocks(cfg: Config, m: Miner, block: Block, ans: Answers)
    requires cfg.nPages > 0 && MiningDue(cfg, block, ans)
    ensures var solved := Obtain(cfg, m, block, ans).1;
            Process(cfg, m, block, ans).1
            == if solved.Ok? then Decide(cfg, ans, solved.value) else Outcome([], Some(solved.error), false)
  {
  }

  // ---- mining and its checks ----

  /**
   Re-mining a round accepts what the solver returns for the round's own data exactly when it has
   the round, at most the allowed pages and the winners asked for.
   */
  lemma {:induction false} AcceptedIffInOrder(cfg: Config, truth: Truth, round: nat, s: Solution)
    ensures var d := truth(round);
            var voters := if |d.voters| <= cfg.nPages then d.voters else d.voters[..cfg.nPages];
            var mined := cfg.mine(d.targets, voters, round, d.desired);
            && (Remine(cfg, truth, round) == Ok(s) <==>
                  mined == Ok(s) && s.round == round && |s.pages| <= cfg.nPages && s.winners == d.desired)
            && (mined.Err? ==> Remine(cfg, truth, round) == mined)
            && (mined.Ok? && Remine(cfg, truth, round).Err? ==>
                  Remine(cfg, truth, round).error == (if mined.value.round != round then WrongRound
                                                      else if |mined.value.pages| > cfg.nPages then WrongPageCount
                                                      else WrongWinnerCount))
  {
  }

  // ---- what the caches spare ----

  /** With a solution of the round at hand, neither the network nor the mining timeout matters to fetching and mining. */
  lemma {:induction false} CachedSolutionSparesMining(
    cfg: Config, m: Miner, block: Block, ans: Answers, fails: SC.Faults, late: bool)
    requires cfg.nPages > 0 && !block.phase.Snapshot? && m.cached.Some? && m.cached.value.round == block.round
    ensures Process(cfg, m, block, ans) == Process(cfg, m, block, ans.(fails := fails, miningTimesOut := late))
    ensures Process(cfg, m, block, ans).0.cache == m.cache
  {
  }

  /** An accepted solution is kept for the round; a failed attempt leaves what was kept. */
  lemma {:induction false} MinedSolutionIsKept(cfg: Config, m: Miner, block: Block, ans: Answers)
    requires cfg.nPages > 0 && MiningDue(cfg, block, ans)
    ensures var solved := Obtain(cfg, m, block, ans).1;
            Process(cfg, m, block, ans).0.cached == if solved.Ok? then Some(solved.value) else m.cached
  {
  }

  /** During the snapshot phase pages are collected as they appear: afterwards every page on chain is in the cache. */
  lemma {:induction false} SnapshotPhaseCollects(h: SC.Hashing, cfg: Config, m: Miner, block: Block, ans: Answers)
    requires cfg.nPages > 0 && FetchDue(block, ans) && !SC.Refused(ans.fails)
    requires SC.CollisionFree(h) && SC.Consistent(h, block.at) && SC.Sound(h, m.cache, cfg.nPages)
    ensures var (n, o) := Process(cfg, m, block, ans);
            && o == Outcome([], None, false) && n.cached == m.cached
            && (forall p :: 0 <= p < cfg.nPages && SC.Key(block.round, p) in block.at.voterPages ==>
                  SC.Current(n.cache, block.at, block.round, p))
            && (SC.Key(block.round, cfg.nPages - 1) in block.at.targetPages ==>
                  SC.TargetCurrent(n.cache, block.at, block.round, cfg.nPages))
  {
    SC.LossyFetchKeepsSound(h, m.cache, block.at, block.round, cfg.nPages, ans.fails);
  }

  /** A snapshot-phase block touches nothing but the page cache, and reports only a read the network refused. */
  lemma {:induction false} SnapshotPhaseReports(h: SC.Hashing, cfg: Config, m: Miner, block: Block, ans: Answers)
    requires cfg.nPages > 0 && FetchDue(block, ans)
    requires SC.CollisionFree(h) && SC.Consistent(h, block.at) && SC.Sound(h, m.cache, cfg.nPages)
    ensures var (n, o) := Process(cfg, m, block, ans);
            && n == m.(cache := n.cache) && SC.Sound(h, n.cache, cfg.nPages)
            && o.effects == [] && !o.outcompeted
            && (o.error.Some? ==> o.error == Some(Unanswered(ans.faultIsCritical)) && SC.Refused(ans.fails))
            && (o.error.None? ==> forall p :: 0 <= p < cfg.nPages && SC.Key(block.round, p) in block.at.voterPages ==>
                  SC.Current(n.cache, block.at, block.round, p))
  {
    SC.LossyFetchKeepsSound(h, m.cache, block.at, block.round, cfg.nPages, ans.fails);
  }

  /** The message that ends a round empties both caches and nothing else. */
  lemma {:induction false} ClearingForgets(cfg: Config, m: Miner)
    requires cfg.nPages > 0
    ensures var (n, o) := Handle(cfg, m, ClearSnapshots);
            && n.cached == None && n.cache.target == None && n.cache.voter == map[]
            && n.lastOutcompeted == m.lastOutcompeted && n.counted == m.counted
            && o == Outcome([], None, false)
  {
  }

  /** Without a solution of the round: why fetching or mining gives none. */
  lemma {:induction false} WhyNothingWasMined(cfg: Config, m: Miner, block: Block, ans: Answers)
    requires cfg.nPages > 0 && (m.cached.None? || m.cached.value.round != block.round)
    ensures var solved := Obtain(cfg, m, block, ans).1;
            var f := SC.FetchMissing(m.cache, block.at, block.round, cfg.nPages, ans.fails);
            && Obtain(cfg, m, block, ans).0.cache == f.cache
            && (f.result == Err(SC.EmptySnapshot) ==> solved == Err(EmptySnapshot))
            && (f.result == Err(SC.RpcFailed) ==> solved == Err(Unanswered(ans.faultIsCritical)))
            && (f.result.Ok? && f.cache.target.Some? && ans.miningTimesOut ==> solved == Err(Timeout))
  {
  }

  // ---- the metric and the end of the task ----

  /** The rounds in which some handled message was outcompeted. */
  ghost predicate OutcompetedIn(msgs: seq<Message>, outcomes: seq<Outcome>, round: nat) {
    exists i :: 0 <= i < |outcomes| && i < |msgs| && outcomes[i].outcompeted && msgs[i].ProcessBlock? && msgs[i].block.round == round
  }

  ghost predicate CountsExactly(m: Miner, msgs: seq<Message>, outcomes: seq<Outcome>) {
    && (m.lastOutcompeted.Some? ==> m.lastOutcompeted.value in m.counted)
    && forall round :: round in m.counted <==> OutcompetedIn(msgs, outcomes, round)
  }

  lemma {:induction false} HandleCountsExactly(cfg: Config, m: Miner, msg: Message)
    requires cfg.nPages > 0 && (m.lastOutcompeted.Some? ==> m.lastOutcompeted.value in m.counted)
    ensures var (n, o) := Handle(cfg, m, msg);
            && (o.outcompeted ==> msg.ProcessBlock?)
            && (n.lastOutcompeted.Some? ==> n.lastOutcompeted.value in n.counted)
            && forall round :: round in n.counted <==> round in m.counted || (o.outcompeted && msg.block.round == round)
  {
  }

  lemma {:induction false} OutcompetedStep(msgs: seq<Message>, outcomes: seq<Outcome>, msg: Message, o: Outcome, round: nat)
    requires |msgs| == |outcomes|
    ensures OutcompetedIn(msgs + [msg], outcomes + [o], round)
       <==> OutcompetedIn(msgs, outcomes, round) || (o.outcompeted && msg.ProcessBlock? && msg.block.round == round)
  {
    var more, all := msgs + [msg], outcomes + [o];
    assert more[|msgs|] == msg && all[|msgs|] == o;
    if OutcompetedIn(msgs, outcomes, round) {
      var i :| 0 <= i < |outcomes| && i < |msgs| && outcomes[i].outcompeted && msgs[i].ProcessBlock? && msgs[i].block.round == round;
      assert more[i] == msgs[i] && all[i] == outcomes[i];
    }
  }

  /** A round is counted exactly when some message of it was outcompeted. */
  lemma {:induction false} RoundsCountedExactly(cfg: Config, msgs: seq<Message>)
    requires cfg.nPages > 0
    ensures CountsExactly(RunTask(cfg, msgs).miner, msgs[..|RunTask(cfg, msgs).outcomes|], RunTask(cfg, msgs).outcomes)
  {
    if msgs != [] {
      var init, msg := msgs[..|msgs| - 1], msgs[|msgs| - 1];
      RoundsCountedExactly(cfg, init);
      RunIsChecked(cfg, init);
      var t, u := RunTask(cfg, init), RunTask(cfg, msgs);
      if t.exited {
        assert msgs[..|t.outcomes|] == init[..|t.outcomes|];
      } else {
        var o := Handle(cfg, t.miner, msg).1;
        HandleCountsExactly(cfg, t.miner, msg);
        assert init[..|t.outcomes|] == init && msgs[..|u.outcomes|] == init + [msg];
        forall round ensures round in u.miner.counted <==> OutcompetedIn(init + [msg], t.outcomes + [o], round) {
          OutcompetedStep(init, t.outcomes, msg, o, round);
        }
      }
    }
  }

  /** Errors that end the task: a missing account, a panic, or a call that failed for good. */
  ghost predicate EndsTask(o: Outcome) {
    o.error == Some(AccountMissing) || o.error == Some(Panic) || o.error == Some(Unanswered(true))
  }

  /** The task ends with the first such error, and every message before it was handled. */
  lemma {:induction false} EndsAtFirstCriticalError(cfg: Config, msgs: seq<Message>)
    requires cfg.nPages > 0
    ensures var t := RunTask(cfg, msgs);
            && (t.exited <==> t.outcomes != [] && EndsTask(t.outcomes[|t.outcomes| - 1]))
            && (forall i :: 0 <= i < |t.outcomes| - 1 ==> !EndsTask(t.outcomes[i]))
            && (!t.exited ==> |t.outcomes| == |msgs|)
  {
    if msgs != [] {
      EndsAtFirstCriticalError(cfg, msgs[..|msgs| - 1]);
    }
  }
}
