/**
 Submitting a solution: register the score, send the pages in one batch or chunk by chunk, retry
 once what failed, and bail when the signed phase runs short.
 */
module Submission {
  import opened Common
  import opened SubmissionLog
  import opened PageBatches

  // ---- specification of the two passes ----

  /** The sheets for the given pages of a solution. */
  function SheetsFor(solution: seq<Payload>, pages: seq<nat>): (sheets: seq<Sheet>)
    requires InRange(pages, |solution|)
    ensures |sheets| == |pages|
  {
    seq(|pages|, i requires 0 <= i < |pages| => Sheet(pages[i], solution[pages[i]]))
  }

  function AllSheets(solution: seq<Payload>): (sheets: seq<Sheet>)
    ensures |sheets| == |solution|
  {
    seq(|solution|, i requires 0 <= i < |solution| => Sheet(i, solution[i]))
  }

  lemma {:induction false} SheetsForPages(solution: seq<Payload>, pages: seq<nat>)
    requires InRange(pages, |solution|)
    ensures PagesOf(SheetsFor(solution, pages)) == Elements(pages)
    ensures Distinct(pages) ==> DistinctPages(SheetsFor(solution, pages))
  {
    var sheets := SheetsFor(solution, pages);
    forall p | p in Elements(pages) ensures p in PagesOf(sheets) {
      var i :| 0 <= i < |pages| && pages[i] == p;
      assert sheets[i].page == p;
    }
  }

  lemma {:induction false} AllSheetsPages(solution: seq<Payload>)
    ensures PagesOf(AllSheets(solution)) == Below(|solution|)
    ensures DistinctPages(AllSheets(solution))
  {
    var sheets := AllSheets(solution);
    forall p | p in Below(|solution|) ensures p in PagesOf(sheets) {
      assert sheets[p].page == p;
    }
  }

  /** The chain stored `s1` in the first pass, whose failures were retried in this order, and `s2` in the second. */
  datatype Passes = Passes(s1: set<nat>, retry: seq<nat>, s2: set<nat>)

  ghost predicate FirstPass(solution: seq<Payload>, size: nat, p: Passes) {
    && p.s1 <= PagesOf(PassOf(AllSheets(solution), size, p.s1).sent)
    && Distinct(p.retry) && Elements(p.retry) == PassOf(AllSheets(solution), size, p.s1).failed
  }

  lemma {:induction false} RetryInRange(solution: seq<Payload>, size: nat, p: Passes)
    requires FirstPass(solution, size, p)
    ensures InRange(p.retry, |solution|)
  {
    var first := PassOf(AllSheets(solution), size, p.s1);
    PassAccounts(AllSheets(solution), size, p.s1);
    PrefixPages(solution, first.sent);
    forall i | 0 <= i < |p.retry| ensures p.retry[i] < |solution| {
      assert p.retry[i] in Elements(p.retry) && p.retry[i] in PagesOf(first.sent);
    }
  }

  ghost function SecondPass(solution: seq<Payload>, size: nat, p: Passes): Pass
    requires FirstPass(solution, size, p)
  {
    RetryInRange(solution, size, p);
    PassOf(SheetsFor(solution, p.retry), size, p.s2)
  }

  /** Both passes went through and the submission was reported as successful. */
  ghost predicate Succeeds(solution: seq<Payload>, size: nat, p: Passes) {
    && FirstPass(solution, size, p)
    && if p.retry == [] then p.s2 == {} else
         p.s2 <= PagesOf(SecondPass(solution, size, p).sent) && SecondPass(solution, size, p).failed == {}
  }

  lemma {:induction false} SecondPassStores(solution: seq<Payload>, size: nat, p: Passes)
    requires Succeeds(solution, size, p)
    ensures p.s2 == Elements(p.retry)
  {
    if p.retry != [] {
      RetryInRange(solution, size, p);
      var sheets := SheetsFor(solution, p.retry);
      SheetsForPages(solution, p.retry);
      PassCompleteIffStored(sheets, size, p.s2);
    }
  }

  lemma {:induction false} Rejoined(all: set<nat>, a: set<nat>, b: set<nat>)
    requires a <= all && b == all - a
    ensures a + b == all
  {
  }

  /** A success stores exactly what the first pass sent: the pages of some initial part of the solution. */
  lemma {:induction false} SuccessStoresWhatWasSent(solution: seq<Payload>, size: nat, p: Passes)
    requires Succeeds(solution, size, p)
    ensures var sent := PassOf(AllSheets(solution), size, p.s1).sent;
            && sent <= AllSheets(solution)
            && p.s1 + p.s2 == Below(|sent|)
            && (p.s1 + p.s2 == Below(|solution|) <==> |sent| == |solution|)
            && (size == 0 ==> |sent| == |solution|)
  {
    var sent := PassOf(AllSheets(solution), size, p.s1).sent;
    PassAccounts(AllSheets(solution), size, p.s1);
    PrefixPages(solution, sent);
    SecondPassStores(solution, size, p);
    Rejoined(PagesOf(sent), p.s1, p.s2);
  }

  lemma {:induction false} PrefixPages(solution: seq<Payload>, sent: seq<Sheet>)
    requires sent <= AllSheets(solution)
    ensures PagesOf(sent) == Below(|sent|)
  {
    forall i | 0 <= i < |sent| ensures sent[i].page == i {
      assert sent[i] == AllSheets(solution)[i];
    }
    forall i | i in Below(|sent|) ensures i in PagesOf(sent) {
      assert sent[i].page == i;
    }
  }

  // ---- when success means complete ----

  function Ascending(n: nat): (pages: seq<nat>)
    ensures |pages| == n
  {
    seq(n, i => i)
  }

  lemma {:induction false} AscendingIsBelow(n: nat)
    ensures Distinct(Ascending(n)) && Elements(Ascending(n)) == Below(n)
  {
    forall i | i in Below(n) ensures i in Elements(Ascending(n)) {
      assert Ascending(n)[i] == i;
    }
  }

  lemma {:induction false} NothingStored(sheets: seq<Sheet>, size: nat)
    requires 0 < size <= |sheets|
    ensures Chunked(sheets, size, {}) == Pass(sheets[..size], PagesOf(sheets[..size]))
  {
    assert sheets[..size][0].page in PagesOf(sheets[..size]);
    assert PagesOf(sheets[..size]) - {} == PagesOf(sheets[..size]);
  }

  /** A chain that stores nothing in the first pass and what is sent again in the second. */
  function OnlyTheRetry(size: nat): Passes {
    Passes({}, Ascending(size), Below(size))
  }

  lemma {:induction false} FirstPassFails(solution: seq<Payload>, size: nat)
    requires 0 < size < |solution|
    ensures FirstPass(solution, size, OnlyTheRetry(size))
  {
    var sheets := AllSheets(solution);
    NothingStored(sheets, size);
    PrefixPages(solution, sheets[..size]);
    AscendingIsBelow(size);
  }

  lemma {:induction false} FirstChunkRetried(solution: seq<Payload>, size: nat)
    requires 0 < size < |solution|
    ensures Succeeds(solution, size, OnlyTheRetry(size))
  {
    var p := OnlyTheRetry(size);
    FirstPassFails(solution, size);
    RetryInRange(solution, size, p);
    SheetsForPages(solution, p.retry);
    AscendingIsBelow(size);
    PassCompleteIffStored(SheetsFor(solution, p.retry), size, p.s2);
  }

  /**
   That success stores the whole solution, whatever the chain does, holds exactly when the pages
   go out in one batch: with more than one chunk, the retry covers the first failing chunk only
   and the chunks behind it are never sent.
   */
  lemma {:induction false} SuccessMeansCompleteIffOneBatch(solution: seq<Payload>, size: nat)
    ensures (forall p :: Succeeds(solution, size, p) ==> p.s1 + p.s2 == Below(|solution|))
       <==> size == 0 || |solution| <= size
  {
    if size == 0 || |solution| <= size {
      forall p | Succeeds(solution, size, p) ensures p.s1 + p.s2 == Below(|solution|) {
        SuccessStoresWhatWasSent(solution, size, p);
        OneChunk(AllSheets(solution), size, p.s1);
      }
    } else {
      FirstChunkRetried(solution, size);
      var p := OnlyTheRetry(size);
      assert p.s1 + p.s2 == Below(size);
      assert |Below(size)| != |Below(|solution|)|;
    }
  }

  lemma {:induction false} OneBatchIsComplete(solution: seq<Payload>, size: nat, p: Passes)
    ensures Succeeds(solution, size, p) && (size == 0 || |solution| <= size) ==> p.s1 + p.s2 == Below(|solution|)
  {
    SuccessMeansCompleteIffOneBatch(solution, size);
  }

  lemma {:induction false} OneChunk(sheets: seq<Sheet>, size: nat, stored: set<nat>)
    requires size == 0 || |sheets| <= size
    ensures PassOf(sheets, size, stored).sent == sheets
  {
    if size > 0 && sheets != [] {
      var k := Min(size, |sheets|);
      assert sheets[..k] == sheets && sheets[k..] == [];
      assert Chunked(sheets[k..], size, stored) == Pass([], {});
      assert sheets + [] == sheets;
    }
  }

  // ---- the submission itself ----

  /** The attempts left after `i` rejections, and their trace. */
  function Registering(world: World, log: Log, i: nat): (Result<(), Error>, Log)
    decreases MAX_REGISTER_ATTEMPTS - i
  {
    if i >= MAX_REGISTER_ATTEMPTS then (Err(ExtrinsicError), log) else
      var tried := log + [RegisterTried];
      match world.register(log)
      case Accepted => (Ok(()), tried)
      case OtherFailure => (Err(CallFailed), tried)
      case ExtrinsicRejected => Registering(world, tried, i + 1)
  }

  /** The chain rejects the first `k` attempts and accepts the next. */
  ghost predicate RejectsFirst(world: World, k: nat) {
    forall log :: world.register(log) == if Tries(log) < k then ExtrinsicRejected else Accepted
  }

  /** A rejected extrinsic is tried again, up to ten attempts in all. */
  lemma {:induction false} RejectionsAreRetried(world: World, log: Log, k: nat)
    requires RejectsFirst(world, k) && Tries(log) <= k && Tries(log) <= 10
    ensures var (r, end) := Registering(world, log, Tries(log));
            if k < 10 then r == Ok(()) && Tries(end) == k + 1
            else r == Err(ExtrinsicError) && Tries(end) == 10
    decreases 10 - Tries(log)
  {
    var tried := log + [RegisterTried];
    assert tried[..|tried| - 1] == log;
    assert Tries(tried) == Tries(log) + 1;
    if Tries(log) < k && Tries(log) < 10 {
      RejectionsAreRetried(world, tried, k);
    }
  }

  /** Any other failure is not. */
  lemma {:induction false} OtherFailuresAreFinal(world: World, log: Log)
    requires world.register(log).OtherFailure?
    ensures Registering(world, log, 0) == (Err(CallFailed), log + [RegisterTried])
  {
  }

  /** Register the score, trying again only when the extrinsic was rejected. */
  method RegisterScore(world: World, before: Log, min: nat) returns (r: Result<(), Error>, log: Log)
    requires !Happened(Registered, before) && Tries(before) == 0
    requires Legal(min, before) && SeenAmple(min, before)
    ensures Legal(min, log) && Sends(log) == Sends(before) && Stored(log) == Stored(before)
    ensures 1 <= Tries(log) <= MAX_REGISTER_ATTEMPTS && !Happened(Registered, log)
    ensures r.Ok? ==> log != [] && log[|log| - 1].RegisterTried?
    ensures r.Err? ==> r.error in {CallFailed, ExtrinsicError}
    ensures r == Err(ExtrinsicError) ==> Tries(log) == MAX_REGISTER_ATTEMPTS
    ensures (r, log) == Registering(world, before, 0)
    ensures Registers(world) ==> r.Ok? && Tries(log) == 1
  {
    log := before;
    var i := 0;
    while i < MAX_REGISTER_ATTEMPTS
      invariant i <= MAX_REGISTER_ATTEMPTS && Tries(log) == i
      invariant Registering(world, log, i) == Registering(world, before, 0)
      invariant Registers(world) ==> i == 0
      invariant !Happened(Registered, log)
      invariant Legal(min, log) && SeenAmple(min, log)
      invariant Sends(log) == Sends(before) && Stored(log) == Stored(before)
    {
      var answer := world.register(log);
      log := Note(log, RegisterTried, min);
      match answer {
        case Accepted => return Ok(()), log;
        case OtherFailure => return Err(CallFailed), log;
        case ExtrinsicRejected => i := i + 1;
      }
    }
    r := Err(ExtrinsicError);
  }

  /** Take the failed pages out of the solution, leaving emptied ones behind. */
  method TakePages(solution: seq<Payload>, failed: seq<nat>) returns (sheets: seq<Sheet>)
    requires InRange(failed, |solution|)
    ensures Distinct(failed) ==> sheets == SheetsFor(solution, failed)
  {
    var rest := solution;
    sheets := [];
    for i := 0 to |failed|
      invariant |rest| == |solution| && |sheets| == i
      invariant Distinct(failed) ==> forall p: nat :: p < |rest| && p !in failed[..i] ==> rest[p] == solution[p]
      invariant Distinct(failed) ==> forall k :: 0 <= k < i ==> sheets[k] == Sheet(failed[k], solution[failed[k]])
    {
      sheets := sheets + [Sheet(failed[i], rest[failed[i]])];
      rest := rest[failed[i] := Emptied];
    }
  }

  /** The score is accepted at once and its event is seen. */
  ghost predicate Registers(world: World) {
    forall log :: world.register(log).Accepted? && world.confirm(log).Confirmed?
  }

  /** Stages 1 and 2: check the phase, register the score and wait for the `Registered` event. */
  method Register(world: World, min: nat) returns (r: Result<(), Error>, log: Log)
    ensures Legal(min, log) && Sends(log) == [] && Stored(log) == {}
    ensures r.Ok? ==> Happened(Registered, log)
    ensures r == Err(InsufficientBlocks) ==> NothingAtRisk(log)
    ensures r.Err? ==> !r.error.FailedToSubmitPages?
    ensures Cooperative(world, min) && Registers(world) ==> r.Ok?
    ensures RunsShort(world, min) && Registers(world) ==> r.Ok?
    ensures Cooperative(world, min) && (forall l :: world.register(l).Accepted? && world.confirm(l).WithoutEvent?) ==>
      r == Err(MissingTxEvent)
    ensures Cooperative(world, min) && (forall l :: world.register(l).Accepted? && world.confirm(l).NotFinalized?) ==>
      r == Err(CallFailed)
  {
    log := [];
    r, log := ValidateSignedPhaseOrBail(world, log, min);
    if r.Err? {
      return;
    }
    r, log := RegisterScore(world, log, min);
    if r.Err? {
      return;
    }
    match world.confirm(log) {
      case NotFinalized => r := Err(CallFailed);
      case WithoutEvent => r := Err(MissingTxEvent);
      case Confirmed => log := Note(log, Registered, min);
    }
  }

  /** Check the phase, then send the sheets. */
  method CheckAndSend(world: World, before: Log, sheets: seq<Sheet>, size: nat, min: nat)
    returns (r: Result<seq<nat>, Error>, log: Log, ghost stored: set<nat>)
    ensures Kept(min, before, log) && SentPrefix(before, log, sheets)
    ensures r.Ok? ==> Sane(before, log, sheets, stored, r.value)
    ensures r.Ok? && Clean(world, sheets) ==>
      var pass := PassOf(sheets, size, stored);
      stored <= PagesOf(pass.sent) && Did(before, log, r.value, pass)
    ensures r == Err(InsufficientBlocks) ==> NothingAtRisk(log)
    ensures r.Err? ==> !r.error.FailedToSubmitPages?
    ensures Cooperative(world, min) ==> r.Ok?
    ensures r.Ok? && StoresAll(world) ==> r.value == []
    ensures r.Ok? && Deterministic(world) && DistinctPages(sheets) ==> stored == PassTaken(world, Sends(before), sheets, size)
    ensures Backed(world, before) ==> Backed(world, log)
    ensures ShortAndIncomplete(world, min, before) ==>
      r == Err(InsufficientBlocks) && log != [] && log[|log| - 1] == BailFinalized && Sends(log) == Sends(before)
  {
    var valid;
    stored := {};
    valid, log := ValidateSignedPhaseOrBail(world, before, min);
    if valid.Err? {
      assert sheets[..0] == [];
      return Err(valid.error), log, stored;
    }
    ghost var checked := log;
    r, log, stored := SubmitPages(world, log, sheets, size, min);
    assert Sends(checked) == Sends(before) && Stored(checked) == Stored(before);
  }

  /** Every page goes out with the content it has in the solution. */
  ghost predicate Originals(solution: seq<Payload>, sends: seq<Sheet>) {
    forall i :: 0 <= i < |sends| ==> sends[i].page < |solution| && sends[i].payload == solution[sends[i].page]
  }

  lemma {:induction false} PrefixIsOriginal(solution: seq<Payload>, before: Log, log: Log, sheets: seq<Sheet>)
    requires Originals(solution, Sends(before)) && Originals(solution, sheets) && SentPrefix(before, log, sheets)
    ensures Originals(solution, Sends(log))
  {
    var k :| 0 <= k <= |sheets| && Sends(log) == Sends(before) + sheets[..k];
    forall i | 0 <= i < |Sends(log)|
      ensures Sends(log)[i].page < |solution| && Sends(log)[i].payload == solution[Sends(log)[i].page]
    {
      if i >= |Sends(before)| {
        assert Sends(log)[i] == sheets[i - |Sends(before)|];
      }
    }
  }

  lemma {:induction false} FailedInRange(solution: seq<Payload>, failed: seq<nat>)
    requires Elements(failed) <= PagesOf(AllSheets(solution))
    ensures InRange(failed, |solution|)
  {
    AllSheetsPages(solution);
    forall i | 0 <= i < |failed| ensures failed[i] < |solution| {
      assert failed[i] in Elements(failed);
    }
  }

  /** Both passes are over and `count` pages have never been stored. */
  ghost predicate Fails(solution: seq<Payload>, size: nat, p: Passes, count: nat) {
    && FirstPass(solution, size, p) && p.retry != []
    && var second := SecondPass(solution, size, p);
    && p.s2 <= PagesOf(second.sent)
    && count == |second.failed| > 0
    && second.failed !! p.s1 + p.s2
    && (size == 0 ==> second.failed == Below(|solution|) - (p.s1 + p.s2))
  }

  lemma {:induction false} FailureCounts(solution: seq<Payload>, size: nat, p: Passes, failed: seq<nat>)
    requires FirstPass(solution, size, p) && p.retry != []
    requires p.s2 <= PagesOf(SecondPass(solution, size, p).sent)
    requires Distinct(failed) && failed != [] && Elements(failed) == SecondPass(solution, size, p).failed
    ensures Fails(solution, size, p, |failed|)
  {
    RetryInRange(solution, size, p);
    var sheets := SheetsFor(solution, p.retry);
    SheetsForPages(solution, p.retry);
    PassAccounts(AllSheets(solution), size, p.s1);
    PassAccounts(sheets, size, p.s2);
    AllSheetsPages(solution);
    DistinctCardinality(failed);
    PagesOfPrefix(PassOf(sheets, size, p.s2).sent, sheets);
  }

  lemma {:induction false} PagesOfPrefix(a: seq<Sheet>, b: seq<Sheet>)
    requires a <= b
    ensures PagesOf(a) <= PagesOf(b)
  {
    forall p | p in PagesOf(a) ensures p in PagesOf(b) {
      var i :| 0 <= i < |a| && a[i].page == p;
      assert b[i].page == p;
    }
  }

  method FirstRound(world: World, before: Log, solution: seq<Payload>, size: nat, min: nat)
    returns (r: Result<(), Error>, log: Log, failed: seq<nat>, ghost passes: Passes)
    requires Legal(min, before) && Happened(Registered, before) && Sends(before) == [] && Stored(before) == {}
    ensures Legal(min, log) && Happened(Registered, log)
    ensures Originals(solution, Sends(log))
    ensures r == Err(InsufficientBlocks) ==> NothingAtRisk(log)
    ensures r.Err? ==> !r.error.FailedToSubmitPages?
    ensures r.Ok? ==> Distinct(failed) && InRange(failed, |solution|)
    ensures Cooperative(world, min) ==> r.Ok?
    ensures r.Ok? && StoresAll(world) ==> failed == []
    ensures r.Ok? ==> passes.s2 == {} && passes.retry == failed
    ensures r.Ok? && Honest(world) ==>
      && FirstPass(solution, size, passes) && Stored(log) == passes.s1
      && Sends(log) == PassOf(AllSheets(solution), size, passes.s1).sent
    ensures r.Ok? && Deterministic(world) ==> passes.s1 == PassTaken(world, [], AllSheets(solution), size)
    ensures Backed(world, log)
    ensures ShortAndIncomplete(world, min, before) ==>
      r == Err(InsufficientBlocks) && log != [] && log[|log| - 1] == BailFinalized && Sends(log) == []
  {
    var sheets := AllSheets(solution);
    AllSheetsPages(solution);
    var pass;
    ghost var s1;
    failed, passes := [], Passes({}, [], {});
    pass, log, s1 := CheckAndSend(world, before, sheets, size, min);
    PrefixIsOriginal(solution, before, log, sheets);
    if pass.Err? {
      r := Err(pass.error);
      return;
    }
    failed := pass.value;
    FailedInRange(solution, failed);
    r, passes := Ok(()), Passes(s1, failed, {});
  }

  method SecondRound(world: World, before: Log, solution: seq<Payload>, pages: seq<nat>, size: nat, min: nat)
    returns (r: Result<(), Error>, log: Log, failed: seq<nat>, ghost stored: set<nat>)
    requires Legal(min, before) && Happened(Registered, before) && Originals(solution, Sends(before))
    requires Distinct(pages) && InRange(pages, |solution|)
    ensures Legal(min, log) && Happened(Registered, log)
    ensures Originals(solution, Sends(log))
    ensures r == Err(InsufficientBlocks) ==> NothingAtRisk(log)
    ensures r.Err? ==> !r.error.FailedToSubmitPages?
    ensures r.Ok? ==> Distinct(failed) && Stored(log) == Stored(before) + stored
    ensures Cooperative(world, min) ==> r.Ok?
    ensures r.Ok? && Honest(world) ==>
      var pass := PassOf(SheetsFor(solution, pages), size, stored);
      stored <= PagesOf(pass.sent) && Elements(failed) == pass.failed
    ensures r.Ok? && Deterministic(world) ==> stored == PassTaken(world, Sends(before), SheetsFor(solution, pages), size)
    ensures Backed(world, before) ==> Backed(world, log)
  {
    failed := [];
    var sheets := TakePages(solution, pages);
    SheetsForPages(solution, pages);
    var pass;
    pass, log, stored := CheckAndSend(world, before, sheets, size, min);
    PrefixIsOriginal(solution, before, log, sheets);
    if pass.Err? {
      r := Err(pass.error);
      return;
    }
    r, failed := Ok(()), pass.value;
  }

  lemma {:induction false} FirstPassSuffices(solution: seq<Payload>, size: nat, p: Passes)
    requires FirstPass(solution, size, p) && p.retry == []
    ensures p.s1 == Below(|solution|)
  {
    assert Elements(p.retry) == {};
    PassCompleteIffStored(AllSheets(solution), size, p.s1);
    AllSheetsPages(solution);
  }

  /** On a chain that judges by what it was sent, both passes store what was to be expected. */
  ghost predicate Foretold(world: World, solution: seq<Payload>, size: nat, p: Passes) {
    && p.s1 == PassTaken(world, [], AllSheets(solution), size)
    && InRange(p.retry, |solution|)
    && (p.retry != [] ==>
          p.s2 == PassTaken(world, PassOf(AllSheets(solution), size, p.s1).sent, SheetsFor(solution, p.retry), size))
  }

  lemma {:induction false} RetryConcludes(
    world: World, sends: seq<Sheet>, solution: seq<Payload>, size: nat, passes: Passes, failed: seq<nat>)
    requires passes.retry != [] && InRange(passes.retry, |solution|) && Distinct(failed)
    requires Honest(world) ==> FirstPass(solution, size, passes) && sends == PassOf(AllSheets(solution), size, passes.s1).sent
    requires Honest(world) ==>
      var pass := PassOf(SheetsFor(solution, passes.retry), size, passes.s2);
      passes.s2 <= PagesOf(pass.sent) && Elements(failed) == pass.failed
    requires Deterministic(world) ==> passes.s1 == PassTaken(world, [], AllSheets(solution), size)
    requires Deterministic(world) ==> passes.s2 == PassTaken(world, sends, SheetsFor(solution, passes.retry), size)
    ensures Honest(world) && failed == [] ==> Succeeds(solution, size, passes)
    ensures Honest(world) && failed != [] ==> Fails(solution, size, passes, |failed|)
    ensures Deterministic(world) ==> Foretold(world, solution, size, passes)
  {
    if Deterministic(world) {
      DeterministicIsHonest(world);
    }
    if Honest(world) && failed != [] {
      FailureCounts(solution, size, passes, failed);
    }
  }

  /** The second pass and what is reported after it. */
  method Retry(world: World, before: Log, solution: seq<Payload>, pages: seq<nat>, size: nat, min: nat, ghost s1: set<nat>)
    returns (r: Result<(), Error>, log: Log, ghost passes: Passes)
    requires Legal(min, before) && Happened(Registered, before) && Originals(solution, Sends(before))
    requires Distinct(pages) && InRange(pages, |solution|) && pages != []
    requires Honest(world) ==> FirstPass(solution, size, Passes(s1, pages, {})) && Stored(before) == s1
    requires Honest(world) ==> Sends(before) == PassOf(AllSheets(solution), size, s1).sent
    requires Deterministic(world) ==> s1 == PassTaken(world, [], AllSheets(solution), size)
    requires Backed(world, before)
    ensures Legal(min, log) && Originals(solution, Sends(log))
    ensures r == Err(InsufficientBlocks) ==> NothingAtRisk(log)
    ensures r.Ok? && Honest(world) ==> Succeeds(solution, size, passes) && Stored(log) == passes.s1 + passes.s2
    ensures Cooperative(world, min) ==> r.Ok? || r.error.FailedToSubmitPages?
    ensures r.Err? && r.error.FailedToSubmitPages? ==>
      && log != [] && Ample(min, log[|log| - 1])
      && (Honest(world) ==> Fails(solution, size, passes, r.error.count) && Stored(log) == passes.s1 + passes.s2)
    ensures (r.Ok? || r.error.FailedToSubmitPages?) && Deterministic(world) ==> Foretold(world, solution, size, passes)
    ensures Backed(world, log)
  {
    var failed;
    ghost var s2;
    r, log, failed, s2 := SecondRound(world, before, solution, pages, size, min);
    passes := Passes(s1, pages, s2);
    if r.Err? {
      return;
    }
    RetryConcludes(world, Sends(before), solution, size, passes, failed);
    if failed != [] {
      r, log := ReportFailure(world, log, |failed|, min);
    }
  }

  /** Check the phase once more, to bail if it runs short, and report the failed pages. */
  method ReportFailure(world: World, before: Log, count: nat, min: nat) returns (r: Result<(), Error>, log: Log)
    ensures OnlyChecked(min, before, log)
    ensures r.Err? && r.error in {CallFailed, InsufficientBlocks, PhaseChanged, FailedToSubmitPages(count)}
    ensures r == Err(InsufficientBlocks) ==> NothingAtRisk(log)
    ensures r == Err(FailedToSubmitPages(count)) ==> log != [] && Ample(min, log[|log| - 1])
    ensures Cooperative(world, min) ==> r == Err(FailedToSubmitPages(count))
    ensures ShortAndIncomplete(world, min, before) ==>
      r == Err(InsufficientBlocks) && log != [] && log[|log| - 1] == BailFinalized
  {
    r, log := ValidateSignedPhaseOrBail(world, before, min);
    if r.Ok? {
      r := Err(FailedToSubmitPages(count));
    }
  }

  lemma {:induction false} FirstConcludes(world: World, solution: seq<Payload>, size: nat, passes: Passes)
    requires passes.retry == [] && passes.s2 == {}
    requires Honest(world) ==> FirstPass(solution, size, passes)
    requires Deterministic(world) ==> passes.s1 == PassTaken(world, [], AllSheets(solution), size)
    ensures Honest(world) ==> Succeeds(solution, size, passes) && passes.s1 == Below(|solution|)
    ensures Deterministic(world) ==> Foretold(world, solution, size, passes)
  {
    if Honest(world) {
      FirstPassSuffices(solution, size, passes);
    }
  }

  /** Both passes, for a registered score. */
  method SubmitBoth(world: World, before: Log, solution: seq<Payload>, size: nat, min: nat)
    returns (r: Result<(), Error>, log: Log, ghost passes: Passes)
    requires Legal(min, before) && Happened(Registered, before) && Sends(before) == [] && Stored(before) == {}
    ensures Legal(min, log) && Originals(solution, Sends(log))
    ensures r == Err(InsufficientBlocks) ==> NothingAtRisk(log)
    ensures r.Ok? && Honest(world) ==> Succeeds(solution, size, passes) && Stored(log) == passes.s1 + passes.s2
    ensures Cooperative(world, min) ==> r.Ok? || r.error.FailedToSubmitPages?
    ensures Cooperative(world, min) && StoresAll(world) && Honest(world) ==> r.Ok? && Stored(log) == Below(|solution|)
    ensures r.Err? && r.error.FailedToSubmitPages? ==>
      && log != [] && Ample(min, log[|log| - 1])
      && (Honest(world) ==> Fails(solution, size, passes, r.error.count) && Stored(log) == passes.s1 + passes.s2)
    ensures (r.Ok? || r.error.FailedToSubmitPages?) && Deterministic(world) ==> Foretold(world, solution, size, passes)
    ensures Backed(world, log)
    ensures ShortAndIncomplete(world, min, before) ==>
      r == Err(InsufficientBlocks) && log != [] && log[|log| - 1] == BailFinalized && Sends(log) == []
  {
    var failed;
    r, log, failed, passes := FirstRound(world, before, solution, size, min);
    if r.Err? {
      return;
    }
    if failed == [] {
      FirstConcludes(world, solution, size, passes);
      return;
    }
    r, log, passes := Retry(world, log, solution, failed, size, min, passes.s1);
  }

  method Submit(world: World, solution: seq<Payload>, size: nat, min: nat)
    returns (r: Result<(), Error>, log: Log, ghost passes: Passes)
    ensures Legal(min, log)
    ensures Originals(solution, Sends(log))
    ensures r == Err(InsufficientBlocks) ==> NothingAtRisk(log)
    ensures r.Ok? && Honest(world) ==> Succeeds(solution, size, passes) && Stored(log) == passes.s1 + passes.s2
    ensures r.Ok? && Honest(world) && (size == 0 || |solution| <= size) ==> Stored(log) == Below(|solution|)
    ensures Cooperative(world, min) && Registers(world) ==> r.Ok? || r.error.FailedToSubmitPages?
    ensures Cooperative(world, min) && Registers(world) && StoresAll(world) && Honest(world) ==>
      r.Ok? && Stored(log) == Below(|solution|)
    ensures r.Err? && r.error.FailedToSubmitPages? ==>
      && log != [] && Ample(min, log[|log| - 1])
      && (Honest(world) ==> Fails(solution, size, passes, r.error.count) && Stored(log) == passes.s1 + passes.s2)
    ensures (r.Ok? || r.error.FailedToSubmitPages?) && Deterministic(world) ==> Foretold(world, solution, size, passes)
    ensures Backed(world, log)
    ensures RunsShort(world, min) && Registers(world) ==>
      r == Err(InsufficientBlocks) && log != [] && log[|log| - 1] == BailFinalized && Sends(log) == []
  {
    passes := Passes({}, [], {});
    r, log := Register(world, min);
    if r.Ok? {
      r, log, passes := SubmitBoth(world, log, solution, size, min);
      OneBatchIsComplete(solution, size, passes);
    }
  }

  // ---- a chain on which success is early ----

  /** A chain that loses the first `size` page transactions and stores every one after them. */
  function LosesFirst(size: nat, min: nat): World {
    World(
      log => Some(Signed(min + 1)), log => Some(None), log => true, log => true,
      log => Accepted, log => Confirmed, (log, sheet) => true,
      (log: Log, page: nat) => if |Sends(log)| > size then Dispatched([page]) else Lost)
  }

  lemma {:induction false} LosesFirstBehaves(size: nat, min: nat)
    ensures var world := LosesFirst(size, min); Cooperative(world, min) && Registers(world) && Deterministic(world)
    ensures forall sends, page :: Takes(LosesFirst(size, min), sends, page) <==> |sends| > size
  {
    forall log: Log ensures Sends(Wire(Sends(log))) == Sends(log) {
      WireSends(Sends(log));
    }
    forall sends, page ensures Takes(LosesFirst(size, min), sends, page) <==> |sends| > size {
      WireSends(sends);
    }
  }

  lemma {:induction false} FirstChunkIsLost(solution: seq<Payload>, size: nat, min: nat)
    requires 0 < size < |solution|
    ensures PassTaken(LosesFirst(size, min), [], AllSheets(solution), size) == {}
  {
    var sheets := AllSheets(solution);
    LosesFirstBehaves(size, min);
    assert [] + sheets[..size] == sheets[..size];
    assert sheets[..size][0].page in PagesOf(sheets[..size]);
  }

  lemma {:induction false} RetryIsStored(sends: seq<Sheet>, sheets: seq<Sheet>, size: nat, min: nat)
    requires 0 < size == |sends| == |sheets|
    ensures PassTaken(LosesFirst(size, min), sends, sheets, size) == PagesOf(sheets)
  {
    LosesFirstBehaves(size, min);
    var world, k := LosesFirst(size, min), Min(size, |sheets|);
    assert sheets[..k] == sheets && sheets[k..] == [];
    assert Taken(world, sends + sheets, sheets) == PagesOf(sheets);
    assert ChunksTaken(world, sends + sheets, sheets[k..], size) == {};
    assert PagesOf(sheets) + {} == PagesOf(sheets);
  }

  lemma {:induction false} OnlyTheFirstChunk(solution: seq<Payload>, size: nat, min: nat, p: Passes)
    requires 0 < size < |solution|
    requires FirstPass(solution, size, p) && Foretold(LosesFirst(size, min), solution, size, p)
    ensures p.s1 == {} && p.s2 == Below(size) && SecondPass(solution, size, p).failed == {}
  {
    var sheets := AllSheets(solution);
    FirstChunkIsLost(solution, size, min);
    NothingStored(sheets, size);
    PrefixPages(solution, sheets[..size]);
    DistinctCardinality(p.retry);
    var again := SheetsFor(solution, p.retry);
    SheetsForPages(solution, p.retry);
    RetryIsStored(sheets[..size], again, size, min);
    PassCompleteIffStored(again, size, p.s2);
  }

  /**
   The failing side of the condition, as a run: for every solution of more than one chunk there is
   a chain on which `Submit` returns `Ok` with nothing but the first chunk stored.
   */
  method EarlySuccess(solution: seq<Payload>, size: nat, min: nat) returns (r: Result<(), Error>, log: Log)
    requires 0 < size < |solution|
    ensures r.Ok? && Stored(log) == Below(size) != Below(|solution|)
  {
    ghost var passes;
    LosesFirstBehaves(size, min);
    DeterministicIsHonest(LosesFirst(size, min));
    r, log, passes := Submit(LosesFirst(size, min), solution, size, min);
    OnlyTheFirstChunk(solution, size, min, passes);
    assert |Below(size)| != |Below(|solution|)|;
  }
}
