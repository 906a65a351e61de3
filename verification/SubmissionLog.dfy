/**
 The vocabulary of a submission: the log of what was read from and sent to the chain, the
 protocol every such log obeys, and the phase check that guards each stage. The chain answers as
 it likes: every answer is a function of everything that happened before.
 */
module SubmissionLog {
  import opened Common

  /** The content of a page, and what taking it out leaves behind. */
  datatype Payload = Content(id: nat) | Emptied

  datatype Sheet = Sheet(page: nat, payload: Payload)

  datatype Event =
    | PhaseRead(phase: Phase)
    | OwnRead(bitmap: Option<seq<bool>>)
    | BailFinalized
    | RegisterTried
    | Registered
    | BatchBegun
    | PageSent(sheet: Sheet)
    | PageStored(page: nat)

  type Log = seq<Event>

  /** A registration attempt is accepted, rejected as an extrinsic, or fails in another way. */
  datatype Attempt = Accepted | ExtrinsicRejected | OtherFailure

  datatype Confirmation = Confirmed | WithoutEvent | NotFinalized

  /** A page transaction is never finalized, fails in dispatch, or names the pages it stored. */
  datatype Inclusion = Lost | DispatchFailed | Dispatched(stored: seq<nat>)

  /** Answers of the chain; `None` and `false` are failed calls. */
  datatype World = World(
    phase: Log -> Option<Phase>, own: Log -> Option<Option<seq<bool>>>, bail: Log -> bool, nonce: Log -> bool,
    register: Log -> Attempt, confirm: Log -> Confirmation, send: (Log, Sheet) -> bool, included: (Log, nat) -> Inclusion)

  /** A page transaction's events name no page but its own. */
  ghost predicate Honest(world: World) {
    forall log, page :: world.included(log, page).Dispatched? ==>
      forall i :: 0 <= i < |world.included(log, page).stored| ==> world.included(log, page).stored[i] == page
  }

  /** The chain answers every call about pages, and the signed phase lasts. */
  ghost predicate Cooperative(world: World, min: nat) {
    && (forall log :: world.phase(log).Some? && world.phase(log).value.Signed? && world.phase(log).value.left > min)
    && (forall log :: world.nonce(log))
    && (forall log, sheet :: world.send(log, sheet))
    && (forall log, page :: !world.included(log, page).DispatchFailed?)
  }

  /** The phase has run short, our submission lacks a page, and the calls to find that out and to bail are answered. */
  ghost predicate ShortAndIncomplete(world: World, min: nat, log: Log) {
    && world.phase(log).Some? && world.phase(log).value.Signed? && world.phase(log).value.left <= min
    && var read := log + [PhaseRead(world.phase(log).value)];
    && world.own(read).Some? && world.own(read).value.Some? && Lacks(world.own(read).value.value)
    && world.bail(read + [OwnRead(world.own(read).value)])
  }

  /** The signed phase lasts until the score is registered and runs short right after, with our submission incomplete. */
  ghost predicate RunsShort(world: World, min: nat) {
    forall log ::
      if Happened(Registered, log) then ShortAndIncomplete(world, min, log)
      else world.phase(log).Some? && world.phase(log).value.Signed? && world.phase(log).value.left > min
  }

  /** Some nonce, page transaction or dispatch is not refused. */
  ghost predicate GivesNonces(world: World) {
    exists log :: world.nonce(log)
  }

  ghost predicate TakesPages(world: World) {
    exists log, sheet :: world.send(log, sheet)
  }

  ghost predicate Settles(world: World) {
    exists log, page :: !world.included(log, page).DispatchFailed?
  }

  /** Every page transaction is finalized and stores its page. */
  ghost predicate StoresAll(world: World) {
    forall log, page :: world.included(log, page).Dispatched? && page in world.included(log, page).stored
  }

  datatype Error =
    | CallFailed | ExtrinsicError | MissingTxEvent | PhaseChanged | InsufficientBlocks | FailedToSubmitPages(count: nat) | Panicked

  const MAX_REGISTER_ATTEMPTS: nat := 10

  // ---- what a log says ----

  predicate AllTrue(bitmap: seq<bool>) {
    forall i :: 0 <= i < |bitmap| ==> bitmap[i]
  }

  predicate Ample(min: nat, e: Event) {
    e.PhaseRead? && e.phase.Signed? && e.phase.left > min
  }

  predicate Short(min: nat, e: Event) {
    e.PhaseRead? && e.phase.Signed? && e.phase.left <= min
  }

  function Tries(log: Log): nat {
    if log == [] then 0 else Tries(log[..|log| - 1]) + if log[|log| - 1].RegisterTried? then 1 else 0
  }

  /** Some event of the log equals `e`. */
  predicate Happened(e: Event, log: Log) {
    log != [] && (log[|log| - 1] == e || Happened(e, log[..|log| - 1]))
  }

  /** The phase was read at some point with enough blocks left. */
  predicate SeenAmple(min: nat, log: Log) {
    log != [] && (Ample(min, log[|log| - 1]) || SeenAmple(min, log[..|log| - 1]))
  }

  function Sends(log: Log): seq<Sheet> {
    if log == [] then [] else
      Sends(log[..|log| - 1]) + if log[|log| - 1].PageSent? then [log[|log| - 1].sheet] else []
  }

  function Stored(log: Log): set<nat> {
    if log == [] then {} else
      Stored(log[..|log| - 1]) + if log[|log| - 1].PageStored? then {log[|log| - 1].page} else {}
  }

  function PagesOf(sheets: seq<Sheet>): set<nat> {
    set i | 0 <= i < |sheets| :: sheets[i].page
  }

  predicate DistinctPages(sheets: seq<Sheet>) {
    forall i, j :: 0 <= i < j < |sheets| ==> sheets[i].page != sheets[j].page
  }

  /** Honest events name only pages that were sent. */
  ghost predicate Backed(world: World, log: Log) {
    Honest(world) ==> Stored(log) <= PagesOf(Sends(log))
  }

  // ---- chains that judge by what they were sent ----

  /** A log of nothing but page transactions. */
  function Wire(sends: seq<Sheet>): Log {
    if sends == [] then [] else Wire(sends[..|sends| - 1]) + [PageSent(sends[|sends| - 1])]
  }

  lemma {:induction false} WireSends(sends: seq<Sheet>)
    ensures Sends(Wire(sends)) == sends
  {
    if sends != [] {
      var init := sends[..|sends| - 1];
      WireSends(init);
      assert Wire(sends)[..|Wire(sends)| - 1] == Wire(init);
    }
  }

  /** Whether a page is stored depends only on the pages sent so far, and nothing else goes wrong with it. */
  ghost predicate Deterministic(world: World) {
    forall log, page ::
      && world.included(log, page) == world.included(Wire(Sends(log)), page)
      && (world.included(log, page) == Lost || world.included(log, page) == Dispatched([page]))
  }

  /** Such a chain stores this page after these have been sent. */
  ghost predicate Takes(world: World, sends: seq<Sheet>, page: nat) {
    world.included(Wire(sends), page).Dispatched?
  }

  /** The pages of a batch such a chain stores, after `sends` in all. */
  ghost function Taken(world: World, sends: seq<Sheet>, sheets: seq<Sheet>): set<nat> {
    set i | 0 <= i < |sheets| && Takes(world, sends, sheets[i].page) :: sheets[i].page
  }

  // ---- the protocol ----

  /** Whether the submission protocol lets `e` happen after `log`. */
  ghost predicate Allowed(min: nat, log: Log, e: Event) {
    match e
    case PhaseRead(_) => true
    case OwnRead(_) => log != [] && Short(min, log[|log| - 1])
    case BailFinalized =>
      log != [] && log[|log| - 1].OwnRead? && log[|log| - 1].bitmap.Some? && !AllTrue(log[|log| - 1].bitmap.value)
    case RegisterTried => !Happened(Registered, log) && Tries(log) < MAX_REGISTER_ATTEMPTS
                          && SeenAmple(min, log)
    case Registered => !Happened(Registered, log) && log != [] && log[|log| - 1].RegisterTried?
    case BatchBegun => Happened(Registered, log) && Ample(min, log[|log| - 1])
    case PageSent(_) =>
      && Happened(Registered, log) && |log| >= 2
      && log[|log| - 1].PhaseRead? && log[|log| - 1].phase.Signed?
      && (log[|log| - 2].BatchBegun? || log[|log| - 2].PageSent?)
    case PageStored(_) => Happened(BatchBegun, log)
  }

  ghost predicate Legal(min: nat, log: Log) {
    log == [] || (Legal(min, log[..|log| - 1]) && Allowed(min, log[..|log| - 1], log[|log| - 1]))
  }

  /** Every event of a legal log was allowed when it happened. */
  lemma {:induction false} LegalAt(min: nat, log: Log, i: nat)
    requires Legal(min, log) && i < |log|
    ensures Allowed(min, log[..i], log[i])
  {
    if i < |log| - 1 {
      var init := log[..|log| - 1];
      LegalAt(min, init, i);
      assert init[..i] == log[..i];
    }
  }

  /** A legal log holds at most ten registration attempts. */
  lemma {:induction false} AttemptsAreBounded(min: nat, log: Log)
    requires Legal(min, log)
    ensures Tries(log) <= MAX_REGISTER_ATTEMPTS
  {
    if log != [] {
      AttemptsAreBounded(min, log[..|log| - 1]);
    }
  }

  lemma {:induction false} HappenedBefore(e: Event, log: Log)
    ensures Happened(e, log) <==> exists i :: 0 <= i < |log| && log[i] == e
  {
    if log != [] {
      var init := log[..|log| - 1];
      HappenedBefore(e, init);
      if i :| 0 <= i < |init| && init[i] == e {
        assert log[i] == e;
      }
      assert forall i :: 0 <= i < |log| - 1 ==> log[i] == init[i];
    }
  }

  /**
   In a legal log every page is sent after registration was confirmed, and every batch begins
   right after the phase was read as signed with more than the minimum of blocks left.
   */
  lemma {:induction false} PagesFollowRegistration(min: nat, log: Log, i: nat)
    requires Legal(min, log) && i < |log|
    ensures log[i].PageSent? ==> exists j :: 0 <= j < i && log[j] == Registered
    ensures log[i].BatchBegun? ==> i > 0 && Ample(min, log[i - 1]) && exists j :: 0 <= j < i && log[j] == Registered
    ensures log[i] == Registered ==> i > 0 && log[i - 1] == RegisterTried && forall j :: 0 <= j < i ==> log[j] != Registered
  {
    LegalAt(min, log, i);
    HappenedBefore(Registered, log[..i]);
    assert forall j :: 0 <= j < i ==> log[..i][j] == log[j];
    if exists j :: 0 <= j < |log[..i]| && log[..i][j] == Registered {
      var j :| 0 <= j < |log[..i]| && log[..i][j] == Registered;
      assert log[j] == Registered;
    }
  }

  /** The log grew by something other than registration, and legally so once the score is registered. */
  ghost predicate Kept(min: nat, before: Log, after: Log) {
    && |before| <= |after|
    && Tries(after) == Tries(before)
    && (Happened(Registered, after) <==> Happened(Registered, before))
    && (Happened(BatchBegun, before) ==> Happened(BatchBegun, after))
    && (Legal(min, before) && Happened(Registered, before) ==> Legal(min, after))
  }

  /** Append to the log. */
  method Note(before: Log, e: Event, ghost min: nat) returns (log: Log)
    ensures log == before + [e]
    ensures Legal(min, before) && Allowed(min, before, e) ==> Legal(min, log)
    ensures Happened(Registered, log) <==> e == Registered || Happened(Registered, before)
    ensures Happened(BatchBegun, log) <==> e == BatchBegun || Happened(BatchBegun, before)
    ensures Tries(log) == Tries(before) + if e.RegisterTried? then 1 else 0
    ensures Sends(log) == Sends(before) + if e.PageSent? then [e.sheet] else []
    ensures Stored(log) == Stored(before) + if e.PageStored? then {e.page} else {}
  {
    log := before + [e];
    assert log[..|log| - 1] == before;
  }

  /** Nothing happened but reads and, at most, a bail. */
  ghost predicate OnlyChecked(min: nat, before: Log, after: Log) {
    && Kept(min, before, after)
    && Sends(after) == Sends(before) && Stored(after) == Stored(before)
    && (Legal(min, before) ==> Legal(min, after))
  }

  /** No submission of ours is left at risk: there is none, it is complete, or it has just been bailed. */
  ghost predicate NothingAtRisk(log: Log) {
    && log != []
    && var last := log[|log| - 1];
    || (last.OwnRead? && (last.bitmap.Some? ==> AllTrue(last.bitmap.value)))
    || last.BailFinalized?
  }

  /** Some page of ours is not stored. */
  ghost predicate Lacks(bitmap: seq<bool>) {
    exists i :: 0 <= i < |bitmap| && !bitmap[i]
  }

  method BailIncomplete(world: World, before: Log, min: nat) returns (r: Result<(), Error>, log: Log)
    requires before != [] && Short(min, before[|before| - 1])
    ensures world.own(before).None? ==> r == Err(CallFailed) && log == before
    ensures world.own(before).Some? ==>
      var own := world.own(before).value;
      var read := before + [OwnRead(own)];
      if own.Some? && Lacks(own.value) then
        (if world.bail(read) then r == Err(InsufficientBlocks) && log == read + [BailFinalized]
         else r == Err(CallFailed) && log == read)
      else r == Err(InsufficientBlocks) && log == read
    ensures OnlyChecked(min, before, log)
    ensures r == Err(InsufficientBlocks) ==> NothingAtRisk(log)
    ensures r.Err? && r.error in {CallFailed, InsufficientBlocks}
  {
    log := before;
    var own := world.own(log);
    if own.None? {
      return Err(CallFailed), log;
    }
    log := Note(log, OwnRead(own.value), min);
    if own.value.Some? && !AllTrue(own.value.value) {
      if !world.bail(log) {
        return Err(CallFailed), log;
      }
      log := Note(log, BailFinalized, min);
    }
    r := Err(InsufficientBlocks);
  }

  method ValidateSignedPhaseOrBail(world: World, before: Log, min: nat) returns (r: Result<(), Error>, log: Log)
    ensures world.phase(before).None? ==> r == Err(CallFailed) && log == before
    ensures world.phase(before).Some? ==>
      var phase := world.phase(before).value;
      var read := before + [PhaseRead(phase)];
      && (!phase.Signed? ==> r == Err(PhaseChanged) && log == read)
      && (phase.Signed? && phase.left > min ==> r == Ok(()) && log == read)
      && (phase.Signed? && phase.left <= min && world.own(read).None? ==> r == Err(CallFailed) && log == read)
      && (phase.Signed? && phase.left <= min && world.own(read).Some? ==>
            var own := world.own(read).value;
            var seen := read + [OwnRead(own)];
            if own.Some? && Lacks(own.value) then
              (if world.bail(seen) then r == Err(InsufficientBlocks) && log == seen + [BailFinalized]
               else r == Err(CallFailed) && log == seen)
            else r == Err(InsufficientBlocks) && log == seen)
    ensures OnlyChecked(min, before, log)
    ensures r.Ok? ==> |log| == |before| + 1 && Ample(min, log[|before|])
    ensures r == Err(InsufficientBlocks) ==> NothingAtRisk(log)
    ensures r == Err(PhaseChanged) ==> log != [] && log[|log| - 1].PhaseRead? && !log[|log| - 1].phase.Signed?
    ensures r.Err? ==> r.error in {CallFailed, InsufficientBlocks, PhaseChanged}
  {
    log := before;
    var phase := world.phase(log);
    if phase.None? {
      return Err(CallFailed), log;
    }
    log := Note(log, PhaseRead(phase.value), min);
    if !phase.value.Signed? {
      return Err(PhaseChanged), log;
    }
    if phase.value.left > min {
      return Ok(()), log;
    }
    r, log := BailIncomplete(world, log, min);
  }
}
