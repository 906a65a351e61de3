/**
 Sending solution pages: one batch of page transactions, and passes made of one batch or of one
 batch per chunk. A pass is specified by which pages the chain stored.
 */
module PageBatches {
  import opened Common
  import opened SubmissionLog

  // ---- specification of a pass ----

  datatype Pass = Pass(sent: seq<Sheet>, failed: set<nat>)

  function OneBatch(sheets: seq<Sheet>, stored: set<nat>): Pass {
    Pass(sheets, PagesOf(sheets) - stored)
  }

  /** Chunk after chunk, up to and with the first one that has a page not stored. */
  function Chunked(sheets: seq<Sheet>, size: nat, stored: set<nat>): (p: Pass)
    requires size > 0
    decreases |sheets|
  {
    if sheets == [] then Pass([], {}) else
      var k := Min(size, |sheets|);
      var first := OneBatch(sheets[..k], stored);
      if first.failed != {} then first else
        var rest := Chunked(sheets[k..], size, stored);
        Pass(first.sent + rest.sent, rest.failed)
  }

  /** What a chain that judges by what it was sent stores of the chunks, `sends` having gone out before. */
  ghost function ChunksTaken(world: World, sends: seq<Sheet>, sheets: seq<Sheet>, size: nat): set<nat>
    requires size > 0
    decreases |sheets|
  {
    if sheets == [] then {} else
      var k := Min(size, |sheets|);
      var first := Taken(world, sends + sheets[..k], sheets[..k]);
      if PagesOf(sheets[..k]) <= first then first + ChunksTaken(world, sends + sheets[..k], sheets[k..], size) else first
  }

  ghost function PassTaken(world: World, sends: seq<Sheet>, sheets: seq<Sheet>, size: nat): set<nat> {
    if size == 0 then Taken(world, sends + sheets, sheets) else ChunksTaken(world, sends, sheets, size)
  }

  function PassOf(sheets: seq<Sheet>, size: nat, stored: set<nat>): Pass {
    if size == 0 then OneBatch(sheets, stored) else Chunked(sheets, size, stored)
  }

  lemma {:induction false} PagesAppend(a: seq<Sheet>, b: seq<Sheet>)
    ensures PagesOf(a + b) == PagesOf(a) + PagesOf(b)
  {
    forall p | p in PagesOf(a) + PagesOf(b) ensures p in PagesOf(a + b) {
      if p in PagesOf(a) {
        var i :| 0 <= i < |a| && a[i].page == p;
        assert (a + b)[i].page == p;
      } else {
        var i :| 0 <= i < |b| && b[i].page == p;
        assert (a + b)[|a| + i].page == p;
      }
    }
  }

  lemma {:induction false} NoRestIffSubset(a: set<nat>, b: set<nat>)
    ensures a - b == {} <==> a <= b
  {
    assert forall x :: x in a - b <==> x in a && x !in b;
  }

  /** A pass fails on exactly the pages it sent and the chain did not store. */
  lemma {:induction false} PassAccounts(sheets: seq<Sheet>, size: nat, stored: set<nat>)
    ensures var p := PassOf(sheets, size, stored); p.sent <= sheets && p.failed == PagesOf(p.sent) - stored
    decreases |sheets|
  {
    if size > 0 && sheets != [] {
      var k := Min(size, |sheets|);
      PassAccounts(sheets[k..], size, stored);
      PagesAppend(sheets[..k], Chunked(sheets[k..], size, stored).sent);
      NoRestIffSubset(PagesOf(sheets[..k]), stored);
      assert sheets == sheets[..k] + sheets[k..];
    }
  }

  /** A pass reports no failure exactly when every page was stored, and then it sent them all. */
  lemma {:induction false} PassCompleteIffStored(sheets: seq<Sheet>, size: nat, stored: set<nat>)
    ensures var p := PassOf(sheets, size, stored);
            && (p.failed == {} <==> PagesOf(sheets) <= stored)
            && (p.failed == {} ==> p.sent == sheets)
    decreases |sheets|
  {
    NoRestIffSubset(PagesOf(sheets), stored);
    if size > 0 && sheets != [] {
      var k := Min(size, |sheets|);
      var first, rest := sheets[..k], sheets[k..];
      assert sheets == first + rest;
      PagesAppend(first, rest);
      NoRestIffSubset(PagesOf(first), stored);
      PassCompleteIffStored(rest, size, stored);
    }
  }

  /** A multiple of `size`. */
  predicate Border(i: nat, size: nat)
    requires size > 0
  {
    i == 0 || (i >= size && Border(i - size, size))
  }

  /** The pass sent the sheets before `k`, stored those before `i` and failed in the chunk between. */
  ghost predicate StopsAt(sheets: seq<Sheet>, size: nat, stored: set<nat>, i: nat, k: nat)
    requires size > 0
  {
    && Border(i, size) && i < |sheets| && k == Min(i + size, |sheets|)
    && PagesOf(sheets[..i]) <= stored
    && Chunked(sheets, size, stored) == Pass(sheets[..k], PagesOf(sheets[i..k]) - stored)
  }

  lemma {:induction false} Shifted(first: seq<Sheet>, tail: seq<Sheet>, j: nat, l: nat)
    requires j <= l <= |tail|
    ensures (first + tail)[|first| + j..|first| + l] == tail[j..l]
    ensures (first + tail)[..|first| + j] == first + tail[..j]
    ensures (first + tail)[..|first| + l] == first + tail[..l]
  {
  }

  lemma {:induction false} StopsLater(
    sheets: seq<Sheet>, first: seq<Sheet>, tail: seq<Sheet>, size: nat, stored: set<nat>, j: nat, l: nat)
    requires size == |first| > 0 && sheets == first + tail
    requires PagesOf(first) <= stored && StopsAt(tail, size, stored, j, l)
    ensures StopsAt(sheets, size, stored, size + j, size + l)
  {
    assert sheets[..size] == first && sheets[size..] == tail;
    assert Chunked(sheets, size, stored) == Pass(first + tail[..l], PagesOf(tail[j..l]) - stored) by {
      NoRestIffSubset(PagesOf(first), stored);
    }
    Shifted(first, tail, j, l);
    PagesAppend(first, tail[..j]);
  }

  lemma {:induction false} StopsAtOnce(sheets: seq<Sheet>, size: nat, stored: set<nat>)
    requires size > 0 && sheets != [] && OneBatch(sheets[..Min(size, |sheets|)], stored).failed != {}
    ensures StopsAt(sheets, size, stored, 0, Min(size, |sheets|))
  {
    var k := Min(size, |sheets|);
    assert sheets[0..k] == sheets[..k];
    assert PagesOf(sheets[..0]) == {};
  }

  lemma {:induction false} FailsLater(sheets: seq<Sheet>, size: nat, stored: set<nat>)
    returns (first: seq<Sheet>, tail: seq<Sheet>)
    requires size > 0 && sheets != [] && OneBatch(sheets[..Min(size, |sheets|)], stored).failed == {}
    requires Chunked(sheets, size, stored).failed != {}
    ensures |first| == size && sheets == first + tail
    ensures PagesOf(first) <= stored && Chunked(tail, size, stored).failed != {}
  {
    var k := Min(size, |sheets|);
    first, tail := sheets[..k], sheets[k..];
    assert Chunked(tail, size, stored).failed != {};
    NoRestIffSubset(PagesOf(first), stored);
  }

  /**
   A chunked pass that fails stops in the middle of its work: it sent whole chunks, the ones
   before the last are stored, the failures are the pages of the last one that are not, and
   nothing behind it was sent.
   */
  lemma {:induction false} FirstFailingChunk(sheets: seq<Sheet>, size: nat, stored: set<nat>)
    requires size > 0 && Chunked(sheets, size, stored).failed != {}
    ensures exists i: nat, k: nat :: StopsAt(sheets, size, stored, i, k)
    decreases |sheets|
  {
    if OneBatch(sheets[..Min(size, |sheets|)], stored).failed != {} {
      StopsAtOnce(sheets, size, stored);
    } else {
      var first, tail := FailsLater(sheets, size, stored);
      FirstFailingChunk(tail, size, stored);
      var j: nat, l: nat :| StopsAt(tail, size, stored, j, l);
      StopsLater(sheets, first, tail, size, stored, j, l);
    }
  }

  // ---- one batch ----

  /** The events are honest and no page occurs twice. */
  ghost predicate Clean(world: World, sheets: seq<Sheet>) {
    Honest(world) && DistinctPages(sheets)
  }

  datatype Batch = Batch(failed: seq<nat>, submitted: set<nat>)

  /** The batch has just begun or has just sent a page. */
  ghost predicate Open(log: Log) {
    log != [] && (log[|log| - 1].BatchBegun? || log[|log| - 1].PageSent?)
  }

  /** Some initial part of the sheets went out. */
  ghost predicate SentPrefix(before: Log, log: Log, sheets: seq<Sheet>) {
    exists k :: 0 <= k <= |sheets| && Sends(log) == Sends(before) + sheets[..k]
  }

  method SendOne(world: World, before: Log, sheet: Sheet, min: nat) returns (r: Result<(), Error>, log: Log)
    requires Open(before)
    ensures Kept(min, before, log)
    ensures Stored(log) == Stored(before)
    ensures r.Ok? ==> Open(log) && Sends(log) == Sends(before) + [sheet]
    ensures r.Err? ==> Sends(log) == Sends(before) && r.error in {CallFailed, Panicked}
    ensures Cooperative(world, min) ==> r.Ok?
    ensures r.Ok? ==> TakesPages(world)
  {
    log := before;
    var phase := world.phase(log);
    if phase.None? {
      return Err(CallFailed), log;
    }
    log := Note(log, PhaseRead(phase.value), min);
    assert log[|log| - 2] == before[|before| - 1] && log[|log| - 1] == PhaseRead(phase.value);
    if !phase.value.Signed? {
      return Err(Panicked), log;
    }
    if !world.send(log, sheet) {
      return Err(CallFailed), log;
    }
    log := Note(log, PageSent(sheet), min);
    r := Ok(());
  }

  method SendAll(world: World, before: Log, sheets: seq<Sheet>, min: nat) returns (r: Result<(), Error>, log: Log)
    requires Open(before)
    ensures Kept(min, before, log)
    ensures Stored(log) == Stored(before)
    ensures r.Ok? ==> Sends(log) == Sends(before) + sheets
    ensures r.Err? ==> SentPrefix(before, log, sheets)
    ensures r.Err? ==> r.error in {CallFailed, Panicked}
    ensures Cooperative(world, min) ==> r.Ok?
    ensures r.Ok? && sheets != [] ==> TakesPages(world)
  {
    log := before;
    for i := 0 to |sheets|
      invariant Kept(min, before, log) && Open(log)
      invariant i == 0 || TakesPages(world)
      invariant Sends(log) == Sends(before) + sheets[..i]
      invariant Stored(log) == Stored(before)
    {
      r, log := SendOne(world, log, sheets[i], min);
      if r.Err? {
        return;
      }
      assert sheets[..i + 1] == sheets[..i] + [sheets[i]];
    }
    assert sheets[..|sheets|] == sheets;
    r := Ok(());
  }

  /** Pages stored according to the events of one transaction. */
  method NoteStored(before: Log, pages: seq<nat>, ghost min: nat) returns (log: Log, stored: set<nat>)
    requires Happened(BatchBegun, before)
    ensures Kept(min, before, log) && Sends(log) == Sends(before)
    ensures stored == Elements(pages)
    ensures Stored(log) == Stored(before) + stored
  {
    log, stored := before, {};
    for i := 0 to |pages|
      invariant Kept(min, before, log) && Sends(log) == Sends(before)
      invariant stored == Elements(pages[..i])
      invariant Stored(log) == Stored(before) + stored
    {
      log := Note(log, PageStored(pages[i]), min);
      stored := stored + {pages[i]};
      assert pages[..i + 1] == pages[..i] + [pages[i]];
    }
    assert pages[..|pages|] == pages;
  }

  /** Pages of the transactions outside `pending`. */
  ghost function SettledPages(sheets: seq<Sheet>, pending: set<nat>): set<nat> {
    set i | 0 <= i < |sheets| && i !in pending :: sheets[i].page
  }

  /** What is known once the transactions outside `pending` are settled. */
  ghost predicate Settled(world: World, sheets: seq<Sheet>, pending: set<nat>, lost: set<nat>, submitted: set<nat>) {
    && lost <= SettledPages(sheets, pending)
    && (Honest(world) ==> submitted <= SettledPages(sheets, pending))
    && (Clean(world, sheets) ==> lost !! submitted)
    && (StoresAll(world) ==> lost == {} && SettledPages(sheets, pending) <= submitted)
  }

  lemma {:induction false} Settle(world: World, sheets: seq<Sheet>, pending: set<nat>, lost: set<nat>, submitted: set<nat>,
                                  i: nat, newLost: set<nat>, newStored: set<nat>)
    requires Settled(world, sheets, pending, lost, submitted) && i in pending && i < |sheets|
    requires || (newLost == {sheets[i].page} && newStored == {})
             || (newLost == {} && (Honest(world) ==> newStored <= {sheets[i].page}))
    requires StoresAll(world) ==> newLost == {} && sheets[i].page in newStored
    ensures Settled(world, sheets, pending - {i}, lost + newLost, submitted + newStored)
  {
    assert SettledPages(sheets, pending - {i}) == SettledPages(sheets, pending) + {sheets[i].page};
    assert DistinctPages(sheets) ==> sheets[i].page !in SettledPages(sheets, pending);
  }

  lemma {:induction false} SettledAreExpected(sheets: seq<Sheet>, pending: set<nat>)
    ensures SettledPages(sheets, pending) <= PagesOf(sheets)
  {
  }

  lemma {:induction false} UnionStep(a: set<nat>, b: set<nat>, c: set<nat>)
    ensures (a + b) + c == a + (b + c)
  {
  }

  /** Wait for transaction `i`; it adds to one of the two sets. */
  method AwaitOne(world: World, before: Log, sheets: seq<Sheet>, i: nat, ghost min: nat)
    returns (r: Result<(), Error>, log: Log, lost: set<nat>, stored: set<nat>)
    requires Happened(BatchBegun, before) && i < |sheets|
    ensures Kept(min, before, log) && Sends(log) == Sends(before)
    ensures Stored(log) == Stored(before) + stored
    ensures r.Err? ==> stored == {}
    ensures Deterministic(world) ==>
      r.Ok? && stored == if Takes(world, Sends(before), sheets[i].page) then {sheets[i].page} else {}
    ensures r.Ok? ==>
      && ((lost == {sheets[i].page} && stored == {}) || (lost == {} && (Honest(world) ==> stored <= {sheets[i].page})))
    ensures r.Err? ==> r.error == CallFailed && !Cooperative(world, min)
    ensures r.Ok? && StoresAll(world) ==> lost == {} && sheets[i].page in stored
    ensures r.Ok? ==> Settles(world)
  {
    r, log, lost, stored := Ok(()), before, {}, {};
    match world.included(log, sheets[i].page) {
      case Lost => lost := {sheets[i].page};
      case DispatchFailed => r := Err(CallFailed);
      case Dispatched(pages) => log, stored := NoteStored(log, pages, min);
    }
  }

  /** A chain that judges by what it was sent has stored these pages once the others are settled. */
  ghost predicate Chosen(world: World, sends: seq<Sheet>, sheets: seq<Sheet>, pending: set<nat>, submitted: set<nat>) {
    Deterministic(world) ==>
      submitted == set i | 0 <= i < |sheets| && i !in pending && Takes(world, sends, sheets[i].page) :: sheets[i].page
  }

  lemma {:induction false} Choose(world: World, sends: seq<Sheet>, sheets: seq<Sheet>, pending: set<nat>,
                                  submitted: set<nat>, i: nat, stored: set<nat>)
    requires Chosen(world, sends, sheets, pending, submitted) && i in pending && i < |sheets|
    requires Deterministic(world) ==> stored == if Takes(world, sends, sheets[i].page) then {sheets[i].page} else {}
    ensures Chosen(world, sends, sheets, pending - {i}, submitted + stored)
  {
  }

  /** Where waiting stands while the transactions in `pending` are not settled. */
  ghost predicate Awaited(world: World, before: Log, log: Log, sheets: seq<Sheet>,
                          pending: set<nat>, lost: set<nat>, submitted: set<nat>)
  {
    && Sends(log) == Sends(before)
    && Stored(log) == Stored(before) + submitted
    && Settled(world, sheets, pending, lost, submitted)
    && Chosen(world, Sends(before), sheets, pending, submitted)
  }

  lemma {:induction false} AwaitedStep(world: World, before: Log, mid: Log, log: Log, sheets: seq<Sheet>,
                                       pending: set<nat>, lost: set<nat>, submitted: set<nat>,
                                       i: nat, newLost: set<nat>, newStored: set<nat>)
    requires Awaited(world, before, mid, sheets, pending, lost, submitted) && i in pending && i < |sheets|
    requires Sends(log) == Sends(mid) && Stored(log) == Stored(mid) + newStored
    requires || (newLost == {sheets[i].page} && newStored == {})
             || (newLost == {} && (Honest(world) ==> newStored <= {sheets[i].page}))
    requires StoresAll(world) ==> newLost == {} && sheets[i].page in newStored
    requires Deterministic(world) ==> newStored == if Takes(world, Sends(mid), sheets[i].page) then {sheets[i].page} else {}
    ensures Awaited(world, before, log, sheets, pending - {i}, lost + newLost, submitted + newStored)
  {
    Settle(world, sheets, pending, lost, submitted, i, newLost, newStored);
    Choose(world, Sends(before), sheets, pending, submitted, i, newStored);
    UnionStep(Stored(before), submitted, newStored);
  }

  lemma {:induction false} AwaitedStart(world: World, before: Log, sheets: seq<Sheet>)
    ensures Awaited(world, before, before, sheets, Below(|sheets|), {}, {})
  {
    assert SettledPages(sheets, Below(|sheets|)) == {};
  }

  lemma {:induction false} AwaitedBounds(
    world: World, before: Log, log: Log, sheets: seq<Sheet>, pending: set<nat>, lost: set<nat>, submitted: set<nat>)
    requires Awaited(world, before, log, sheets, pending, lost, submitted)
    ensures Honest(world) ==> submitted <= PagesOf(sheets)
  {
    SettledAreExpected(sheets, pending);
  }

  /** Wait for the transactions, in whatever order they complete; an error leaves the pending ones. */
  method AwaitLoop(world: World, before: Log, sheets: seq<Sheet>, min: nat)
    returns (r: Result<(), Error>, log: Log, ghost pending: set<nat>, lost: set<nat>, submitted: set<nat>)
    requires Happened(BatchBegun, before)
    ensures Kept(min, before, log)
    ensures Awaited(world, before, log, sheets, pending, lost, submitted)
    ensures r.Ok? ==> pending == {} && (sheets != [] ==> Settles(world))
    ensures r.Err? ==> r.error == CallFailed && !Cooperative(world, min)
  {
    log, lost, submitted := before, {}, {};
    var left := Below(|sheets|);
    ghost var any := false;
    AwaitedStart(world, before, sheets);
    while left != {}
      invariant left <= Below(|sheets|) && (any || left == Below(|sheets|))
      invariant Kept(min, before, log)
      invariant Awaited(world, before, log, sheets, left, lost, submitted)
      invariant any ==> Settles(world)
    {
      var i :| i in left;
      ghost var mid := log;
      var newLost, newStored;
      r, log, newLost, newStored := AwaitOne(world, log, sheets, i, min);
      if r.Err? {
        assert Awaited(world, before, log, sheets, left, lost, submitted);
        pending := left;
        return;
      }
      AwaitedStep(world, before, mid, log, sheets, left, lost, submitted, i, newLost, newStored);
      left, lost, submitted, any := left - {i}, lost + newLost, submitted + newStored, true;
    }
    r, pending := Ok(()), {};
  }

  method AwaitAll(world: World, before: Log, sheets: seq<Sheet>, min: nat)
    returns (r: Result<(), Error>, log: Log, lost: set<nat>, submitted: set<nat>)
    requires Happened(BatchBegun, before)
    ensures Kept(min, before, log) && Sends(log) == Sends(before)
    ensures Stored(log) == Stored(before) + submitted
    ensures Honest(world) ==> submitted <= PagesOf(sheets)
    ensures r.Ok? ==> Settled(world, sheets, {}, lost, submitted) && Chosen(world, Sends(before), sheets, {}, submitted)
    ensures r.Err? ==> r.error == CallFailed && !Cooperative(world, min)
    ensures r.Ok? && sheets != [] ==> Settles(world)
  {
    ghost var pending;
    r, log, pending, lost, submitted := AwaitLoop(world, before, sheets, min);
    AwaitedBounds(world, before, log, sheets, pending, lost, submitted);
  }

  /** The elements of a set, in whatever order its iterator gives them. */
  method Listed(s: set<nat>) returns (q: seq<nat>)
    ensures Distinct(q) && Elements(q) == s
    ensures s == {} ==> q == []
  {
    q := [];
    var rest := s;
    while rest != {}
      invariant rest <= s && Distinct(q) && Elements(q) == s - rest
    {
      var x :| x in rest;
      ElementsAppend(q, [x]);
      q, rest := q + [x], rest - {x};
    }
    assert q != [] ==> q[0] in Elements(q);
  }

  /** For distinct pages and honest events, what was stored and what failed partition what was expected. */
  ghost predicate Partition(expected: set<nat>, stored: set<nat>, failed: set<nat>) {
    expected == stored + failed && stored !! failed
  }

  /** What a batch promises: every page was sent and is accounted for, unless an error cut it short. */
  ghost predicate BatchDone(world: World, before: Log, log: Log, sheets: seq<Sheet>, r: Result<Batch, Error>) {
    match r
    case Ok(batch) =>
      && Sends(log) == Sends(before) + sheets
      && Stored(log) == Stored(before) + batch.submitted
      && Distinct(batch.failed)
      && PagesOf(sheets) - batch.submitted <= Elements(batch.failed) <= PagesOf(sheets)
      && (Clean(world, sheets) ==> Partition(PagesOf(sheets), batch.submitted, Elements(batch.failed)))
    case Err(e) =>
      && SentPrefix(before, log, sheets)
      && (e == InsufficientBlocks ==> NothingAtRisk(log))
      && !e.FailedToSubmitPages?
  }

  /** Check the phase and open a batch. */
  method BeginBatch(world: World, before: Log, min: nat) returns (r: Result<(), Error>, log: Log)
    ensures Kept(min, before, log) && Sends(log) == Sends(before) && Stored(log) == Stored(before)
    ensures r.Ok? ==> Open(log) && Happened(BatchBegun, log)
    ensures r == Err(InsufficientBlocks) ==> NothingAtRisk(log)
    ensures r.Err? ==> !r.error.FailedToSubmitPages?
    ensures Cooperative(world, min) ==> r.Ok?
    ensures r.Ok? ==> GivesNonces(world)
  {
    r, log := ValidateSignedPhaseOrBail(world, before, min);
    if r.Err? {
      return;
    }
    log := Note(log, BatchBegun, min);
    if !world.nonce(log) {
      r := Err(CallFailed);
    }
  }

  lemma {:induction false} BackedAfter(world: World, before: Log, log: Log, sheets: seq<Sheet>, stored: set<nat>)
    requires Backed(world, before) && Sends(log) == Sends(before) + sheets
    requires Stored(log) == Stored(before) + stored && (Honest(world) ==> stored <= PagesOf(sheets))
    ensures Backed(world, log)
  {
    PagesAppend(Sends(before), sheets);
  }

  lemma {:induction false} BackedPrefix(world: World, before: Log, log: Log, sheets: seq<Sheet>)
    requires Backed(world, before) && SentPrefix(before, log, sheets) && Stored(log) == Stored(before)
    ensures Backed(world, log)
  {
    var k :| 0 <= k <= |sheets| && Sends(log) == Sends(before) + sheets[..k];
    BackedAfter(world, before, log, sheets[..k], {});
  }

  lemma {:induction false} SentAllOrNothing(before: Log, log: Log, sheets: seq<Sheet>)
    ensures Sends(log) == Sends(before) ==> SentPrefix(before, log, sheets)
    ensures Sends(log) == Sends(before) + sheets ==> SentPrefix(before, log, sheets)
  {
    assert sheets[..0] == [] && sheets[..|sheets|] == sheets;
  }

  /** Collect the failures once every transaction is settled. */
  method Conclude(world: World, ghost before: Log, ghost log: Log, sheets: seq<Sheet>, lost: set<nat>, submitted: set<nat>)
    returns (batch: Batch)
    requires Sends(log) == Sends(before) + sheets && Stored(log) == Stored(before) + submitted
    requires Settled(world, sheets, {}, lost, submitted)
    ensures batch.submitted == submitted
    ensures BatchDone(world, before, log, sheets, Ok(batch))
    ensures StoresAll(world) ==> batch.failed == []
  {
    assert SettledPages(sheets, {}) == PagesOf(sheets);
    NoRestIffSubset(PagesOf(sheets), submitted);
    var failed := Listed(lost + (PagesOf(sheets) - submitted));
    batch := Batch(failed, submitted);
  }

  method SubmitPagesBatch(world: World, before: Log, sheets: seq<Sheet>, min: nat) returns (r: Result<Batch, Error>, log: Log)
    ensures Kept(min, before, log)
    ensures BatchDone(world, before, log, sheets, r)
    ensures Cooperative(world, min) ==> r.Ok?
    ensures r.Ok? && StoresAll(world) ==> r.value.failed == []
    ensures r.Ok? && Deterministic(world) ==> r.value.submitted == Taken(world, Sends(before) + sheets, sheets)
    ensures Backed(world, before) ==> Backed(world, log)
    ensures r.Ok? ==> GivesNonces(world)
    ensures r.Ok? && sheets != [] ==> TakesPages(world)
    ensures r.Ok? && sheets != [] ==> Settles(world)
  {
    var valid;
    valid, log := BeginBatch(world, before, min);
    if valid.Err? {
      SentAllOrNothing(before, log, sheets);
      return Err(valid.error), log;
    }
    ghost var begun := log;
    valid, log := SendAll(world, log, sheets, min);
    if valid.Err? {
      if Backed(world, before) {
        BackedPrefix(world, before, log, sheets);
      }
      return Err(valid.error), log;
    }
    var lost, submitted;
    valid, log, lost, submitted := AwaitAll(world, log, sheets, min);
    if Backed(world, before) {
      BackedAfter(world, before, log, sheets, submitted);
    }
    if valid.Err? {
      SentAllOrNothing(before, log, sheets);
      return Err(valid.error), log;
    }
    var batch := Conclude(world, before, log, sheets, lost, submitted);
    r := Ok(batch);
  }

  // ---- passes ----

  /** What a finished pass did, as a function of the pages the chain stored during it. */
  ghost predicate Did(before: Log, log: Log, failed: seq<nat>, pass: Pass) {
    Sends(log) == Sends(before) + pass.sent && Elements(failed) == pass.failed
  }

  /** What holds of a pass whatever the events say. */
  ghost predicate Sane(before: Log, log: Log, sheets: seq<Sheet>, stored: set<nat>, failed: seq<nat>) {
    && Stored(log) == Stored(before) + stored
    && Distinct(failed) && Elements(failed) <= PagesOf(sheets)
  }

  method SubmitPagesConcurrent(world: World, before: Log, sheets: seq<Sheet>, min: nat)
    returns (r: Result<seq<nat>, Error>, log: Log, ghost stored: set<nat>)
    ensures Kept(min, before, log) && SentPrefix(before, log, sheets)
    ensures r.Ok? ==> Sane(before, log, sheets, stored, r.value)
    ensures r.Ok? && Clean(world, sheets) ==>
      stored <= PagesOf(sheets) && Did(before, log, r.value, OneBatch(sheets, stored))
    ensures r == Err(InsufficientBlocks) ==> NothingAtRisk(log)
    ensures r.Err? ==> !r.error.FailedToSubmitPages?
    ensures Cooperative(world, min) ==> r.Ok?
    ensures r.Ok? && StoresAll(world) ==> r.value == []
    ensures r.Ok? && Deterministic(world) ==> stored == Taken(world, Sends(before) + sheets, sheets)
    ensures Backed(world, before) ==> Backed(world, log)
  {
    var batch;
    stored := {};
    batch, log := SubmitPagesBatch(world, before, sheets, min);
    if batch.Err? {
      r := Err(batch.error);
      return;
    }
    assert sheets[..|sheets|] == sheets;
    stored := batch.value.submitted;
    r := Ok(batch.value.failed);
  }

  /** After `i` sheets the loop is at the border of a chunk. */
  ghost predicate Aligned(sheets: seq<Sheet>, size: nat, i: nat)
    requires size > 0 && i <= |sheets|
  {
    forall stored :: PagesOf(sheets[..i]) <= stored ==>
      var rest := Chunked(sheets[i..], size, stored);
      Chunked(sheets, size, stored) == Pass(sheets[..i] + rest.sent, rest.failed)
  }

  lemma {:induction false} AlignedStep(sheets: seq<Sheet>, size: nat, i: nat, k: nat)
    requires size > 0 && i < |sheets| && Aligned(sheets, size, i) && k == Min(i + size, |sheets|)
    ensures Aligned(sheets, size, k)
  {
    forall stored | PagesOf(sheets[..k]) <= stored
      ensures var rest := Chunked(sheets[k..], size, stored);
              Chunked(sheets, size, stored) == Pass(sheets[..k] + rest.sent, rest.failed)
    {
      PagesSplit(sheets, i, k);
      StoredChunk(sheets, size, i, k, stored);
      assert sheets[..k] == sheets[..i] + sheets[i..k];
      Associative(sheets[..i], sheets[i..k], Chunked(sheets[k..], size, stored).sent);
    }
  }

  lemma {:induction false} StoredChunk(sheets: seq<Sheet>, size: nat, i: nat, k: nat, stored: set<nat>)
    requires size > 0 && i < |sheets| && k == Min(i + size, |sheets|) && PagesOf(sheets[i..k]) <= stored
    ensures var rest := Chunked(sheets[k..], size, stored);
            Chunked(sheets[i..], size, stored) == Pass(sheets[i..k] + rest.sent, rest.failed)
  {
    var tail := sheets[i..];
    assert tail[..k - i] == sheets[i..k] && tail[k - i..] == sheets[k..];
    NoRestIffSubset(PagesOf(sheets[i..k]), stored);
  }

  lemma {:induction false} PagesSplit(sheets: seq<Sheet>, i: nat, k: nat)
    requires i <= k <= |sheets|
    ensures PagesOf(sheets[..k]) == PagesOf(sheets[..i]) + PagesOf(sheets[i..k])
    ensures DistinctPages(sheets) ==> DistinctPages(sheets[i..k]) && PagesOf(sheets[..i]) !! PagesOf(sheets[i..k])
  {
    forall p | p in PagesOf(sheets[..k]) ensures p in PagesOf(sheets[..i]) + PagesOf(sheets[i..k]) {
      var j :| 0 <= j < k && sheets[j].page == p;
      if j < i {
        assert sheets[..i][j].page == p;
      } else {
        assert sheets[i..k][j - i].page == p;
      }
    }
    forall p | p in PagesOf(sheets[i..k]) ensures p in PagesOf(sheets[..k]) {
      var j :| 0 <= j < k - i && sheets[i..k][j].page == p;
      assert sheets[..k][i + j].page == p;
    }
    forall p | p in PagesOf(sheets[..i]) ensures p in PagesOf(sheets[..k]) {
      var j :| 0 <= j < i && sheets[..i][j].page == p;
      assert sheets[..k][j].page == p;
    }
  }

  lemma {:induction false} PagesCount(sheets: seq<Sheet>)
    requires DistinctPages(sheets)
    ensures |PagesOf(sheets)| == |sheets|
  {
    if sheets == [] {
      assert PagesOf(sheets) == {};
    } else {
      var n := |sheets| - 1;
      PagesSplit(sheets, n, n + 1);
      assert sheets[..n + 1] == sheets && sheets[n..n + 1] == [sheets[n]];
      assert PagesOf([sheets[n]]) == {sheets[n].page} by {
        assert [sheets[n]][0] == sheets[n];
      }
      assert DistinctPages(sheets[..n]);
      PagesCount(sheets[..n]);
    }
  }

  lemma {:induction false} EarlierStoresDoNotHide(earlier: set<nat>, expected: set<nat>, submitted: set<nat>, failed: set<nat>)
    requires Partition(expected, submitted, failed) && earlier !! expected
    ensures expected - (earlier + submitted) == failed
  {
  }

  /** The chunk that fails ends the pass; what earlier chunks stored does not hide its failures. */
  lemma {:induction false} FailingChunk(sheets: seq<Sheet>, size: nat, i: nat, k: nat, submitted: set<nat>, failed: set<nat>)
    requires size > 0 && i < |sheets| && Aligned(sheets, size, i) && k == Min(i + size, |sheets|)
    requires DistinctPages(sheets) && failed != {} && Partition(PagesOf(sheets[i..k]), submitted, failed)
    ensures Chunked(sheets, size, PagesOf(sheets[..i]) + submitted) == Pass(sheets[..k], failed)
  {
    var stored := PagesOf(sheets[..i]) + submitted;
    PagesSplit(sheets, i, k);
    EarlierStoresDoNotHide(PagesOf(sheets[..i]), PagesOf(sheets[i..k]), submitted, failed);
    var tail := sheets[i..];
    assert tail[..k - i] == sheets[i..k];
    assert Chunked(tail, size, stored) == Pass(sheets[i..k], failed);
    assert sheets[..k] == sheets[..i] + sheets[i..k];
  }

  /** Where the pass stands at the border after `i` sheets, no chunk having failed. */
  ghost predicate SoFar(world: World, before: Log, log: Log, sheets: seq<Sheet>, size: nat, i: nat, submitted: set<nat>)
    requires size > 0
  {
    && i <= |sheets| && Aligned(sheets, size, i)
    && Sends(log) == Sends(before) + sheets[..i]
    && Stored(log) == Stored(before) + submitted
    && (Clean(world, sheets) ==> submitted == PagesOf(sheets[..i]))
  }

  lemma {:induction false} ChunkSent(before: Log, mid: Log, log: Log, sheets: seq<Sheet>, i: nat, k: nat, j: nat)
    requires i <= k <= |sheets| && j <= k - i
    requires Sends(mid) == Sends(before) + sheets[..i]
    requires Sends(log) == Sends(mid) + sheets[i..k][..j]
    ensures Sends(log) == Sends(before) + sheets[..i + j]
    ensures SentPrefix(before, log, sheets)
  {
    assert sheets[..i + j] == sheets[..i] + sheets[i..k][..j];
    Associative(Sends(before), sheets[..i], sheets[i..k][..j]);
  }

  lemma {:induction false} ChunkSentWhole(before: Log, mid: Log, log: Log, sheets: seq<Sheet>, i: nat, k: nat)
    requires i <= k <= |sheets|
    requires Sends(mid) == Sends(before) + sheets[..i]
    requires Sends(log) == Sends(mid) + sheets[i..k]
    ensures Sends(log) == Sends(before) + sheets[..k]
    ensures SentPrefix(before, log, sheets)
  {
    assert sheets[..k] == sheets[..i] + sheets[i..k];
    Associative(Sends(before), sheets[..i], sheets[i..k]);
  }

  lemma {:induction false} ChunkSucceeds(
    world: World, before: Log, mid: Log, log: Log, sheets: seq<Sheet>, size: nat, i: nat, k: nat, submitted: set<nat>, batch: Batch)
    requires size > 0 && i < |sheets| && k == Min(i + size, |sheets|)
    requires SoFar(world, before, mid, sheets, size, i, submitted)
    requires BatchDone(world, mid, log, sheets[i..k], Ok(batch)) && batch.failed == []
    ensures SoFar(world, before, log, sheets, size, k, submitted + batch.submitted)
  {
    AlignedStep(sheets, size, i, k);
    ChunkSentWhole(before, mid, log, sheets, i, k);
    UnionStep(Stored(before), submitted, batch.submitted);
    PagesSplit(sheets, i, k);
    assert Elements(batch.failed) == {};
  }

  lemma {:induction false} ChunkFails(
    world: World, before: Log, mid: Log, log: Log, sheets: seq<Sheet>, size: nat, i: nat, k: nat, submitted: set<nat>, batch: Batch)
    requires size > 0 && i < |sheets| && k == Min(i + size, |sheets|)
    requires SoFar(world, before, mid, sheets, size, i, submitted)
    requires BatchDone(world, mid, log, sheets[i..k], Ok(batch)) && batch.failed != []
    ensures SentPrefix(before, log, sheets)
    ensures Sane(before, log, sheets, submitted + batch.submitted, batch.failed)
    ensures Clean(world, sheets) ==>
      var pass := Chunked(sheets, size, submitted + batch.submitted);
      submitted + batch.submitted <= PagesOf(pass.sent) && Did(before, log, batch.failed, pass)
  {
    ChunkSentWhole(before, mid, log, sheets, i, k);
    UnionStep(Stored(before), submitted, batch.submitted);
    PagesSplit(sheets, i, k);
    PagesSplit(sheets, k, |sheets|);
    assert sheets[..|sheets|] == sheets;
    assert batch.failed[0] in Elements(batch.failed);
    if Clean(world, sheets) {
      FailingChunk(sheets, size, i, k, batch.submitted, Elements(batch.failed));
    }
  }

  lemma {:induction false} ChunkErrs(
    world: World, before: Log, mid: Log, log: Log, sheets: seq<Sheet>, size: nat, i: nat, k: nat, submitted: set<nat>, e: Error)
    requires size > 0 && i < |sheets| && k == Min(i + size, |sheets|)
    requires SoFar(world, before, mid, sheets, size, i, submitted)
    requires BatchDone(world, mid, log, sheets[i..k], Err(e))
    ensures SentPrefix(before, log, sheets)
  {
    var j :| 0 <= j <= |sheets[i..k]| && Sends(log) == Sends(mid) + sheets[i..k][..j];
    ChunkSent(before, mid, log, sheets, i, k, j);
  }

  /** Once as many pages are stored as there are, or no sheet is left, the pass is complete. */
  lemma {:induction false} PassCompletes(
    world: World, before: Log, log: Log, sheets: seq<Sheet>, size: nat, i: nat, submitted: set<nat>)
    requires size > 0 && SoFar(world, before, log, sheets, size, i, submitted)
    requires i == |sheets| || |submitted| == |sheets|
    ensures SentPrefix(before, log, sheets)
    ensures Sane(before, log, sheets, submitted, [])
    ensures Clean(world, sheets) ==>
      var pass := Chunked(sheets, size, submitted);
      i == |sheets| && submitted <= PagesOf(pass.sent) && Did(before, log, [], pass)
  {
    if Clean(world, sheets) {
      assert DistinctPages(sheets[..i]);
      PagesCount(sheets[..i]);
      assert sheets[..i] == sheets && sheets[i..] == [];
      assert Chunked(sheets, size, submitted) == Pass(sheets, {});
    }
  }

  lemma {:induction false} DeterministicIsHonest(world: World)
    requires Deterministic(world)
    ensures Honest(world)
  {
  }

  /** Up to sheet `i` a chain that judges by what it was sent has stored what was to be expected. */
  ghost predicate Foreseen(world: World, sends: seq<Sheet>, sheets: seq<Sheet>, size: nat, i: nat, submitted: set<nat>)
    requires size > 0 && i <= |sheets|
  {
    Deterministic(world) ==>
      ChunksTaken(world, sends, sheets, size) == submitted + ChunksTaken(world, sends + sheets[..i], sheets[i..], size)
  }

  lemma {:induction false} NextChunk(world: World, sends: seq<Sheet>, sheets: seq<Sheet>, size: nat, i: nat, k: nat)
    requires size > 0 && i < |sheets| && k == Min(i + size, |sheets|)
    ensures var now := sends + sheets[..i];
            var taken := Taken(world, now + sheets[i..k], sheets[i..k]);
            && now + sheets[i..k] == sends + sheets[..k]
            && ChunksTaken(world, now, sheets[i..], size)
               == if PagesOf(sheets[i..k]) <= taken then taken + ChunksTaken(world, sends + sheets[..k], sheets[k..], size)
                  else taken
  {
    var tail, now := sheets[i..], sends + sheets[..i];
    assert now + sheets[i..k] == sends + sheets[..k] by {
      assert sheets[..k] == sheets[..i] + sheets[i..k];
      Associative(sends, sheets[..i], sheets[i..k]);
    }
    assert Min(size, |tail|) == k - i && tail[..k - i] == sheets[i..k] && tail[k - i..] == sheets[k..];
  }

  lemma {:induction false} ForeseenStep(
    world: World, sends: seq<Sheet>, sheets: seq<Sheet>, size: nat, i: nat, k: nat, submitted: set<nat>, batch: Batch)
    requires size > 0 && i < |sheets| && k == Min(i + size, |sheets|)
    requires Foreseen(world, sends, sheets, size, i, submitted)
    requires Deterministic(world) ==> batch.submitted == Taken(world, (sends + sheets[..i]) + sheets[i..k], sheets[i..k])
    requires PagesOf(sheets[i..k]) - batch.submitted <= Elements(batch.failed)
    ensures batch.failed == [] ==> Foreseen(world, sends, sheets, size, k, submitted + batch.submitted)
    ensures Deterministic(world) && !(PagesOf(sheets[i..k]) <= batch.submitted) ==>
      ChunksTaken(world, sends, sheets, size) == submitted + batch.submitted
  {
    NextChunk(world, sends, sheets, size, i, k);
    NoRestIffSubset(PagesOf(sheets[i..k]), batch.submitted);
    assert batch.failed == [] ==> Elements(batch.failed) == {};
    UnionStep(submitted, batch.submitted, ChunksTaken(world, sends + sheets[..k], sheets[k..], size));
  }

  /** The pass is over: what it stored was to be expected. */
  lemma {:induction false} ForeseenEnds(world: World, sends: seq<Sheet>, sheets: seq<Sheet>, size: nat, submitted: set<nat>)
    requires size > 0 && Foreseen(world, sends, sheets, size, |sheets|, submitted)
    ensures Deterministic(world) ==> ChunksTaken(world, sends, sheets, size) == submitted
  {
    assert sheets[|sheets|..] == [];
  }

  lemma {:induction false} ForeseenFails(
    world: World, before: Log, mid: Log, log: Log, sheets: seq<Sheet>, size: nat, i: nat, k: nat, submitted: set<nat>, batch: Batch)
    requires size > 0 && i < |sheets| && k == Min(i + size, |sheets|) && DistinctPages(sheets) && Deterministic(world)
    requires Sends(mid) == Sends(before) + sheets[..i] && Foreseen(world, Sends(before), sheets, size, i, submitted)
    requires BatchDone(world, mid, log, sheets[i..k], Ok(batch)) && batch.failed != []
    requires batch.submitted == Taken(world, Sends(mid) + sheets[i..k], sheets[i..k])
    ensures ChunksTaken(world, Sends(before), sheets, size) == submitted + batch.submitted
  {
    DeterministicIsHonest(world);
    PagesSplit(sheets, i, k);
    ForeseenStep(world, Sends(before), sheets, size, i, k, submitted, batch);
    assert batch.failed[0] in Elements(batch.failed);
  }

  /** Check the phase, then submit the chunk as a batch, which checks it again. */
  method SubmitChunk(world: World, before: Log, chunk: seq<Sheet>, min: nat) returns (r: Result<Batch, Error>, log: Log)
    ensures Kept(min, before, log)
    ensures BatchDone(world, before, log, chunk, r)
    ensures Cooperative(world, min) ==> r.Ok?
    ensures r.Ok? && StoresAll(world) ==> r.value.failed == []
    ensures r.Ok? && Deterministic(world) ==> r.value.submitted == Taken(world, Sends(before) + chunk, chunk)
    ensures Backed(world, before) ==> Backed(world, log)
  {
    var valid;
    valid, log := ValidateSignedPhaseOrBail(world, before, min);
    if valid.Err? {
      assert chunk[..0] == [];
      return Err(valid.error), log;
    }
    ghost var checked := log;
    r, log := SubmitPagesBatch(world, log, chunk, min);
    assert Sends(checked) == Sends(before) && Stored(checked) == Stored(before);
  }

  lemma {:induction false} PassEnds(
    world: World, before: Log, log: Log, sheets: seq<Sheet>, size: nat, i: nat, submitted: set<nat>)
    requires size > 0 && SoFar(world, before, log, sheets, size, i, submitted)
    requires Foreseen(world, Sends(before), sheets, size, i, submitted)
    requires i == |sheets| || |submitted| == |sheets|
    ensures SentPrefix(before, log, sheets)
    ensures Sane(before, log, sheets, submitted, [])
    ensures Clean(world, sheets) ==>
      var pass := Chunked(sheets, size, submitted);
      submitted <= PagesOf(pass.sent) && Did(before, log, [], pass)
    ensures Deterministic(world) && DistinctPages(sheets) ==> submitted == ChunksTaken(world, Sends(before), sheets, size)
  {
    PassCompletes(world, before, log, sheets, size, i, submitted);
    if Deterministic(world) && DistinctPages(sheets) {
      DeterministicIsHonest(world);
      ForeseenEnds(world, Sends(before), sheets, size, submitted);
    }
  }

  method SubmitPagesChunked(world: World, before: Log, sheets: seq<Sheet>, size: nat, min: nat)
    returns (r: Result<seq<nat>, Error>, log: Log, ghost stored: set<nat>)
    requires size > 0
    ensures Kept(min, before, log) && SentPrefix(before, log, sheets)
    ensures r.Ok? ==> Sane(before, log, sheets, stored, r.value)
    ensures r.Ok? && Clean(world, sheets) ==>
      var pass := Chunked(sheets, size, stored);
      stored <= PagesOf(pass.sent) && Did(before, log, r.value, pass)
    ensures r == Err(InsufficientBlocks) ==> NothingAtRisk(log)
    ensures r.Err? ==> !r.error.FailedToSubmitPages?
    ensures Cooperative(world, min) ==> r.Ok?
    ensures r.Ok? && StoresAll(world) ==> r.value == []
    ensures r.Ok? && Deterministic(world) && DistinctPages(sheets) ==> stored == ChunksTaken(world, Sends(before), sheets, size)
    ensures Backed(world, before) ==> Backed(world, log)
  {
    log, stored := before, {};
    var submitted: set<nat> := {};
    var i := 0;
    while i < |sheets|
      invariant SoFar(world, before, log, sheets, size, i, submitted)
      invariant Foreseen(world, Sends(before), sheets, size, i, submitted)
      invariant Kept(min, before, log)
      invariant Backed(world, before) ==> Backed(world, log)
    {
      var k := Min(i + size, |sheets|);
      ghost var mid := log;
      var batch;
      batch, log := SubmitChunk(world, log, sheets[i..k], min);
      if batch.Err? {
        ChunkErrs(world, before, mid, log, sheets, size, i, k, submitted, batch.error);
        return Err(batch.error), log, {};
      }
      if batch.value.failed != [] {
        ChunkFails(world, before, mid, log, sheets, size, i, k, submitted, batch.value);
        if Deterministic(world) && DistinctPages(sheets) {
          ForeseenFails(world, before, mid, log, sheets, size, i, k, submitted, batch.value);
        }
        return Ok(batch.value.failed), log, submitted + batch.value.submitted;
      }
      ChunkSucceeds(world, before, mid, log, sheets, size, i, k, submitted, batch.value);
      ForeseenStep(world, Sends(before), sheets, size, i, k, submitted, batch.value);
      submitted := submitted + batch.value.submitted;
      i := k;
      if |submitted| == |sheets| {
        PassEnds(world, before, log, sheets, size, i, submitted);
        return Ok([]), log, submitted;
      }
    }
    PassEnds(world, before, log, sheets, size, i, submitted);
    r, stored := Ok([]), submitted;
  }

  method SubmitPages(world: World, before: Log, sheets: seq<Sheet>, size: nat, min: nat)
    returns (r: Result<seq<nat>, Error>, log: Log, ghost stored: set<nat>)
    ensures Kept(min, before, log) && SentPrefix(before, log, sheets)
    ensures r.Ok? ==> Sane(before, log, sheets, stored, r.value)
    ensures r.Ok? && Clean(world, sheets) ==>
      var pass := PassOf(sheets, size, stored);
      stored <= PagesOf(pass.sent) && Did(before, log, r.value, pass)
    ensures r == Err(InsufficientBlocks) ==> NothingAtRisk(log)
    ensures r.Err? ==> !r.error.FailedToSubmitPages?
    ensures Cooperative(world, min) ==> r.Ok?
    ensures r.Ok? && StoresAll(world) ==> r.value == []
    ensures r.Ok? && Deterministic(world) && DistinctPages(sheets) ==> stored == PassTaken(world, Sends(before), sheets, size)
    ensures Backed(world, before) ==> Backed(world, log)
  {
    if size == 0 {
      r, log, stored := SubmitPagesConcurrent(world, before, sheets, min);
    } else {
      r, log, stored := SubmitPagesChunked(world, before, sheets, size, min);
    }
  }
}
