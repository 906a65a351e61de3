/**
 Recovering deposits from old rounds: each tick scans the rounds of a bounded window that no
 earlier scan has covered, and clears our leftovers in them.
 */
module OldRounds {
  import opened Common
  import opened Resume

  const U32_MAX: nat := 0xFFFF_FFFF

  type Round = r: int | 0 <= r <= U32_MAX

  const SCAN_ROUNDS: nat := 5

  /** Answers of the chain during one cleanup; `None` and `false` are failed calls. */
  datatype World = World(
    head: bool, critical: bool, submission: nat -> Option<Option<seq<bool>>>, clear: (nat, nat) -> bool)

  /** The rounds from `from` up to but not counting `upto`. */
  datatype Interval = Interval(from: nat, upto: nat)

  predicate Covers(i: Interval, round: int) {
    i.from <= round < i.upto
  }

  function SaturatingSub(a: nat, b: nat): nat {
    if a < b then 0 else a - b
  }

  /** The interval a tick for `current` would scan, if there is one. */
  function Plan(last: Option<nat>, current: nat): Option<Interval> {
    var window := SaturatingSub(current, SCAN_ROUNDS);
    var start := if last.None? then window else if last.value + 1 >= window then last.value + 1 else window;
    if current == 0 || start >= current then None else Some(Interval(start, current))
  }

  function CountTrue(bitmap: seq<bool>): nat {
    if bitmap == [] then 0 else CountTrue(bitmap[..|bitmap| - 1]) + if bitmap[|bitmap| - 1] then 1 else 0
  }

  /** The page count sent along with a clearing call is the number of pages stored. */
  lemma {:induction false} WitnessCountsPages(bitmap: seq<bool>)
    ensures CountTrue(bitmap) == |StoredPages(bitmap)|
  {
    if bitmap == [] {
      assert StoredPages(bitmap) == {};
    } else {
      var n := |bitmap| - 1;
      var init := bitmap[..n];
      WitnessCountsPages(init);
      assert StoredPages(bitmap) == StoredPages(init) + if bitmap[n] then {n} else {};
    }
  }

  datatype Clearing = Clearing(round: nat, pages: nat)

  /** Our submission of this round can be read and holds at least one page. */
  predicate Clearable(world: World, round: nat) {
    world.submission(round).Some? && world.submission(round).value.Some? && CountTrue(world.submission(round).value.value) > 0
  }

  function Clearings(world: World, from: nat, upto: nat): seq<Clearing>
    requires from <= upto
  {
    if from == upto then [] else
      Clearings(world, from, upto - 1)
      + if Clearable(world, upto - 1) then [Clearing(upto - 1, CountTrue(world.submission(upto - 1).value.value))] else []
  }

  /** Our leftover in a round: the submission read holds this many pages, and at least one. */
  ghost predicate IsLeftover(world: World, c: Clearing) {
    exists bitmap :: world.submission(c.round) == Some(Some(bitmap)) && c.pages == |StoredPages(bitmap)| > 0
  }

  /** A scan calls for clearing exactly the leftovers of its interval, in ascending order of rounds. */
  lemma {:induction false} ClearingsAreExact(world: World, from: nat, upto: nat, c: Clearing)
    requires from <= upto
    ensures c in Clearings(world, from, upto) <==> from <= c.round < upto && IsLeftover(world, c)
  {
    if from < upto {
      ClearingsAreExact(world, from, upto - 1, c);
      if Clearable(world, upto - 1) {
        WitnessCountsPages(world.submission(upto - 1).value.value);
      } else if c.round == upto - 1 && IsLeftover(world, c) {
        var bitmap :| world.submission(c.round) == Some(Some(bitmap)) && c.pages == |StoredPages(bitmap)| > 0;
        WitnessCountsPages(bitmap);
        assert false;
      }
    }
  }

  ghost predicate Ascending(clearings: seq<Clearing>) {
    forall i, j :: 0 <= i < j < |clearings| ==> clearings[i].round < clearings[j].round
  }

  lemma {:induction false} ClearingsAscend(world: World, from: nat, upto: nat)
    requires from <= upto
    ensures Ascending(Clearings(world, from, upto))
    ensures forall c :: c in Clearings(world, from, upto) ==> from <= c.round < upto
  {
    if from < upto {
      ClearingsAscend(world, from, upto - 1);
      var init := Clearings(world, from, upto - 1);
      assert forall i :: 0 <= i < |init| ==> init[i] in init;
    }
  }

  function Successes(world: World, clearings: seq<Clearing>): nat {
    if clearings == [] then 0 else
      var last := clearings[|clearings| - 1];
      Successes(world, clearings[..|clearings| - 1]) + if world.clear(last.round, last.pages) then 1 else 0
  }

  /** The clearings that succeed. */
  ghost function Cleared(world: World, clearings: seq<Clearing>): set<Clearing> {
    set c | c in clearings && world.clear(c.round, c.pages)
  }

  /** The count reported is that of the rounds cleared. */
  lemma {:induction false} SuccessesAreCleared(world: World, clearings: seq<Clearing>)
    requires Ascending(clearings)
    ensures Successes(world, clearings) == |Cleared(world, clearings)|
  {
    if clearings != [] {
      var init, last := clearings[..|clearings| - 1], clearings[|clearings| - 1];
      SuccessesAreCleared(world, init);
      assert last !in init;
      assert clearings == init + [last];
      assert Cleared(world, clearings) == Cleared(world, init) + if world.clear(last.round, last.pages) then {last} else {};
    }
  }

  predicate Readable(world: World, i: Interval) {
    world.head && forall round :: i.from <= round < i.upto ==> world.submission(round).Some?
  }

  /** The first round from `start` on whose submission cannot be read. */
  ghost predicate FirstUnreadable(world: World, start: nat, k: nat) {
    start <= k && world.submission(k).None? && forall j :: start <= j < k ==> world.submission(j).Some?
  }

  /** The clearing calls of the rounds before the unreadable one were made. */
  ghost predicate StoppedAt(world: World, start: nat, k: nat, clearings: seq<Clearing>) {
    FirstUnreadable(world, start, k) && clearings == Clearings(world, start, k)
  }

  method ScanRounds(world: World, start: nat, current: nat) returns (r: Result<nat, ()>, clearings: seq<Clearing>)
    requires start <= current
    ensures r.Ok? <==> forall k :: start <= k < current ==> world.submission(k).Some?
    ensures r.Ok? ==> clearings == Clearings(world, start, current) && r.value == Successes(world, clearings)
    ensures r.Err? ==> exists k: nat :: k < current && StoppedAt(world, start, k, clearings)
  {
    clearings := [];
    var cleaned: nat := 0;
    for round := start to current
      invariant forall k :: start <= k < round ==> world.submission(k).Some?
      invariant clearings == Clearings(world, start, round)
      invariant cleaned == Successes(world, clearings)
    {
      var read := world.submission(round);
      if read.None? {
        assert StoppedAt(world, start, round, clearings);
        return Err(()), clearings;
      }
      if read.value.Some? {
        var pages := CountTrue(read.value.value);
        if pages > 0 {
          var c := Clearing(round, pages);
          assert (clearings + [c])[..|clearings|] == clearings;
          clearings := clearings + [c];
          if world.clear(round, pages) {
            cleaned := cleaned + 1;
          }
        }
      }
    }
    r := Ok(cleaned);
  }

  /** Rounds to scan: before the current one, at most five back, and behind the last round scanned. */
  ghost predicate Due(last: Option<nat>, current: nat, round: nat) {
    round < current <= round + 5 && (last.Some? ==> last.value < round)
  }

  /** `round` is the first due one whose submission cannot be read, and only the leftovers before it were called for. */
  ghost predicate Interrupted(world: World, last: Option<nat>, current: nat, round: nat, clearings: seq<Clearing>) {
    && Due(last, current, round) && world.submission(round).None?
    && (forall k: nat :: k < round && Due(last, current, k) ==> world.submission(k).Some?)
    && forall c :: c in clearings <==> c.round < round && Due(last, current, c.round) && IsLeftover(world, c)
  }

  /** What one cleanup does, by the rounds that are due. */
  ghost predicate CleansDue(
    world: World, last: Option<nat>, current: nat, r: Result<nat, ()>, now: Option<nat>, clearings: seq<Clearing>)
  {
    && (r.Ok? <==> world.head && forall k: nat :: Due(last, current, k) ==> world.submission(k).Some?)
    && now == (if r.Ok? && exists k: nat :: Due(last, current, k) then Some(current - 1) else last)
    && Ascending(clearings)
    && (r.Ok? ==>
          && (forall c :: c in clearings <==> Due(last, current, c.round) && IsLeftover(world, c))
          && r.value == |Cleared(world, clearings)|)
    && (!world.head ==> clearings == [])
    && (r.Err? && world.head ==> exists k: nat :: Interrupted(world, last, current, k, clearings))
  }

  /** The same by the interval planned, as the code computes it. */
  ghost predicate Cleans(
    world: World, last: Option<nat>, current: nat, r: Result<nat, ()>, now: Option<nat>, clearings: seq<Clearing>)
  {
    match Plan(last, current)
    case None => now == last && clearings == [] && (r == if world.head then Ok(0) else Err(()))
    case Some(i) =>
      && (r.Ok? <==> Readable(world, i))
      && now == (if r.Ok? then Some(current - 1) else last)
      && (r.Ok? ==> clearings == Clearings(world, i.from, i.upto) && r.value == Successes(world, clearings))
      && (!world.head ==> clearings == [])
      && (r.Err? && world.head ==> exists k: nat :: k < i.upto && StoppedAt(world, i.from, k, clearings))
  }

  lemma {:induction false} PlanIsDue(last: Option<nat>, current: nat)
    ensures Plan(last, current).Some? ==>
      var i := Plan(last, current).value;
      i.from < i.upto && i.upto == current && Due(last, current, i.from) && forall k: nat :: Due(last, current, k) <==> Covers(i, k)
    ensures Plan(last, current).None? ==> forall k: nat :: !Due(last, current, k)
  {
  }

  lemma {:induction false} ScanCleansDue(world: World, last: Option<nat>, current: nat, k: nat)
    requires Plan(last, current).Some? && Plan(last, current).value.from <= k <= current
    ensures var clearings := Clearings(world, Plan(last, current).value.from, k);
            && Ascending(clearings)
            && (forall c :: c in clearings <==> c.round < k && Due(last, current, c.round) && IsLeftover(world, c))
            && Successes(world, clearings) == |Cleared(world, clearings)|
  {
    var i := Plan(last, current).value;
    PlanIsDue(last, current);
    ClearingsAscend(world, i.from, k);
    SuccessesAreCleared(world, Clearings(world, i.from, k));
    forall c ensures c in Clearings(world, i.from, k) <==> c.round < k && Due(last, current, c.round) && IsLeftover(world, c) {
      ClearingsAreExact(world, i.from, k, c);
    }
  }

  /** What the code computes is what is due. */
  lemma {:induction false} CleanupIsDue(
    world: World, last: Option<nat>, current: nat, r: Result<nat, ()>, now: Option<nat>, clearings: seq<Clearing>)
    requires Cleans(world, last, current, r, now, clearings)
    ensures CleansDue(world, last, current, r, now, clearings)
  {
    PlanIsDue(last, current);
    match Plan(last, current)
    case None =>
      assert Cleared(world, clearings) == {};
    case Some(i) =>
      if r.Ok? {
        ScanCleansDue(world, last, current, current);
      } else if world.head {
        var k: nat :| k < i.upto && StoppedAt(world, i.from, k, clearings);
        ScanCleansDue(world, last, current, k);
        assert Interrupted(world, last, current, k, clearings);
      }
  }

  method RunCleanup(world: World, last: Option<nat>, current: Round)
    returns (r: Result<nat, ()>, now: Option<nat>, clearings: seq<Clearing>)
    requires last.Some? ==> last.value < U32_MAX
    ensures now.Some? ==> now.value < U32_MAX
    ensures CleansDue(world, last, current, r, now, clearings)
    ensures Cleans(world, last, current, r, now, clearings)
  {
    r, now, clearings := ScanPlanned(world, last, current);
    CleanupIsDue(world, last, current, r, now, clearings);
  }

  method ScanPlanned(world: World, last: Option<nat>, current: Round)
    returns (r: Result<nat, ()>, now: Option<nat>, clearings: seq<Clearing>)
    requires last.Some? ==> last.value < U32_MAX
    ensures now.Some? ==> now.value < U32_MAX
    ensures Cleans(world, last, current, r, now, clearings)
  {
    now, clearings := last, [];
    if !world.head {
      return Err(()), now, clearings;
    }
    var start: nat;
    match last {
      case Some(l) =>
        var next: Round := l + 1;
        var window := SaturatingSub(current, SCAN_ROUNDS);
        start := if next >= window then next else window;
      case None =>
        start := SaturatingSub(current, SCAN_ROUNDS);
    }
    if current == 0 || start >= current {
      return Ok(0), now, clearings;
    }
    var scanned;
    scanned, clearings := ScanRounds(world, start, current);
    if scanned.Err? {
      return scanned, now, clearings;
    }
    r, now := scanned, Some(current - 1);
  }

  // ---- every sequence of ticks ----

  datatype Tick = Tick(current: Round, world: World)

  /** The task's variable, and the scans completed so far. */
  datatype State = State(last: Option<nat>, scans: seq<Interval>)

  ghost function Next(s: State, tick: Tick): State {
    match Plan(s.last, tick.current)
    case None => s
    case Some(i) => if Readable(tick.world, i) then State(Some(tick.current - 1), s.scans + [i]) else s
  }

  ghost function Run(ticks: seq<Tick>): State {
    if ticks == [] then State(None, []) else Next(Run(ticks[..|ticks| - 1]), ticks[|ticks| - 1])
  }

  ghost predicate Covered(scans: seq<Interval>, round: int) {
    exists k :: 0 <= k < |scans| && Covers(scans[k], round)
  }

  ghost predicate CoveredOnce(scans: seq<Interval>) {
    forall round, j, k :: 0 <= j < |scans| && 0 <= k < |scans| && Covers(scans[j], round) && Covers(scans[k], round) ==> j == k
  }

  /** Disjoint intervals in increasing order, of one to five rounds each. */
  ghost predicate Increasing(scans: seq<Interval>) {
    && (forall k :: 0 <= k < |scans| ==> scans[k].from < scans[k].upto <= scans[k].from + SCAN_ROUNDS)
    && (forall j, k :: 0 <= j < k < |scans| ==> scans[j].upto <= scans[k].from)
  }

  /** The last five rounds before `upto` are covered. */
  ghost predicate WindowCovered(scans: seq<Interval>, upto: nat) {
    forall round {:trigger Covered(scans, round)} :: 0 <= round < upto && upto - SCAN_ROUNDS <= round ==> Covered(scans, round)
  }

  ghost predicate Inv(s: State) {
    && Increasing(s.scans)
    && (s.last.None? <==> s.scans == [])
    && (s.last.Some? ==>
          && s.last.value + 1 == s.scans[|s.scans| - 1].upto <= U32_MAX
          && WindowCovered(s.scans, s.last.value + 1))
  }

  lemma {:induction false} StepCovers(s: State, i: Interval, current: Round)
    requires Inv(s) && Plan(s.last, current) == Some(i)
    ensures WindowCovered(s.scans + [i], current)
  {
    var scans := s.scans + [i];
    forall round {:trigger Covered(scans, round)} | 0 <= round < current && current - SCAN_ROUNDS <= round
      ensures Covered(scans, round)
    {
      if round >= i.from {
        assert Covers(scans[|s.scans|], round);
      } else {
        assert Covered(s.scans, round);
        var k :| 0 <= k < |s.scans| && Covers(s.scans[k], round);
        assert Covers(scans[k], round);
      }
    }
  }

  lemma {:induction false} StepKeepsInv(s: State, tick: Tick)
    requires Inv(s)
    ensures Inv(Next(s, tick))
    ensures Next(s, tick) != s ==>
      && Plan(s.last, tick.current).Some?
      && Next(s, tick).scans == s.scans + [Plan(s.last, tick.current).value]
      && Plan(s.last, tick.current).value.upto == tick.current
      && WindowCovered(Next(s, tick).scans, tick.current)
  {
    var plan := Plan(s.last, tick.current);
    if plan.Some? && Readable(tick.world, plan.value) {
      StepCovers(s, plan.value, tick.current);
      var scans := s.scans + [plan.value];
      assert scans[|s.scans|] == plan.value;
      forall j, k | 0 <= j < k < |scans| ensures scans[j].upto <= scans[k].from {
        if k == |s.scans| {
          assert s.scans[j].upto <= s.scans[|s.scans| - 1].upto by {
            if j < |s.scans| - 1 {
              assert s.scans[j].upto <= s.scans[|s.scans| - 1].from;
            }
          }
        }
      }
    }
  }

  /**
   Over every sequence of ticks, stale, repeated or failing: completed scans are disjoint and
   increasing and cover at most five rounds each, and the number kept never overflows when the
   next one is computed.
   */
  lemma {:induction false} ScansAreDisjoint(ticks: seq<Tick>)
    ensures Inv(Run(ticks))
    ensures Run(ticks).last.Some? ==> Run(ticks).last.value + 1 <= U32_MAX
  {
    if ticks != [] {
      ScansAreDisjoint(ticks[..|ticks| - 1]);
      StepKeepsInv(Run(ticks[..|ticks| - 1]), ticks[|ticks| - 1]);
    }
  }

  /**
   A tick either changes nothing or completes a scan that ends right before its round; after it
   each of the last five earlier rounds has been covered by exactly one completed scan.
   */
  lemma {:induction false} CompletedScanCoversWindow(ticks: seq<Tick>, tick: Tick)
    requires Run(ticks + [tick]) != Run(ticks)
    ensures var scans := Run(ticks + [tick]).scans;
            && |scans| == |Run(ticks).scans| + 1 && Run(ticks).scans < scans
            && scans[|scans| - 1].upto == tick.current
            && WindowCovered(scans, tick.current)
            && CoveredOnce(scans)
  {
    ScansAreDisjoint(ticks);
    ScansAreDisjoint(ticks + [tick]);
    assert (ticks + [tick])[..|ticks|] == ticks;
    StepKeepsInv(Run(ticks), tick);
  }

  /** Rounds left to scan: before the current one, at most five back, and above every round scanned so far. */
  ghost predicate Left(scans: seq<Interval>, current: nat, round: nat) {
    round < current <= round + 5 && forall k :: 0 <= k < |scans| ==> scans[k].upto <= round
  }

  lemma {:induction false} DueIsLeft(s: State, current: nat, round: nat)
    requires Inv(s)
    ensures Due(s.last, current, round) <==> Left(s.scans, current, round)
  {
    if s.last.Some? {
      var n := |s.scans| - 1;
      assert s.scans[n].upto == s.last.value + 1;
      forall k | 0 <= k < n ensures s.scans[k].upto <= s.scans[n].upto {
        assert s.scans[k].upto <= s.scans[n].from;
      }
    }
  }

  /**
   After every sequence of ticks, the next one completes a scan exactly when the head can be read,
   some round is left to scan, and the submission of every such round can be read. The scan covers
   exactly these rounds; otherwise nothing changes.
   */
  lemma {:induction false} ScansWhatIsLeft(ticks: seq<Tick>, tick: Tick)
    ensures var scans := Run(ticks).scans;
            Run(ticks + [tick]) != Run(ticks) <==>
              && tick.world.head
              && (exists k: nat :: Left(scans, tick.current, k))
              && (forall k: nat :: Left(scans, tick.current, k) ==> tick.world.submission(k).Some?)
    ensures Run(ticks + [tick]) != Run(ticks) ==>
      var scans, more := Run(ticks).scans, Run(ticks + [tick]).scans;
      && |more| == |scans| + 1 && scans < more
      && forall k: nat :: Covers(more[|scans|], k) <==> Left(scans, tick.current, k)
  {
    var s := Run(ticks);
    ScansAreDisjoint(ticks);
    assert (ticks + [tick])[..|ticks|] == ticks;
    forall k: nat ensures Due(s.last, tick.current, k) <==> Left(s.scans, tick.current, k) {
      DueIsLeft(s, tick.current, k);
    }
    PlanIsDue(s.last, tick.current);
    if Plan(s.last, tick.current).Some? {
      var i := Plan(s.last, tick.current).value;
      assert Left(s.scans, tick.current, i.from);
      assert (s.scans + [i])[|s.scans|] == i;
    }
  }

  /** Before any scan, the first readable tick past round 0 scans the last five rounds, or all there are. */
  lemma {:induction false} FirstScan(ticks: seq<Tick>, tick: Tick)
    requires Run(ticks).scans == [] && tick.world.head && tick.current > 0
    requires forall k: nat :: k < tick.current <= k + 5 ==> tick.world.submission(k).Some?
    ensures Run(ticks + [tick]).scans == [Interval(if tick.current < 5 then 0 else tick.current - 5, tick.current)]
  {
    ScansWhatIsLeft(ticks, tick);
    assert Left([], tick.current, tick.current - 1);
    ScansAreDisjoint(ticks);
    CompletedScanCoversWindow(ticks, tick);
    var i := Run(ticks + [tick]).scans[0];
    assert Covers(i, i.from);
    assert Left([], tick.current, if tick.current < 5 then 0 else tick.current - 5);
  }

  /** The cleanup for this tick fails: the head or the submission of a round that is due cannot be read. */
  ghost predicate CleanupFails(last: Option<nat>, tick: Tick) {
    !tick.world.head || exists k: nat :: Due(last, tick.current, k) && tick.world.submission(k).None?
  }

  /** The cleanup for the `j`-th tick fails with an error that ends the task. */
  ghost predicate EndsTask(ticks: seq<Tick>, j: nat)
    requires j < |ticks|
  {
    ticks[j].world.critical && CleanupFails(Run(ticks[..j]).last, ticks[j])
  }

  lemma {:induction false} CleanupSteps(s: State, tick: Tick, r: Result<nat, ()>, now: Option<nat>, clearings: seq<Clearing>)
    requires Cleans(tick.world, s.last, tick.current, r, now, clearings)
    requires CleansDue(tick.world, s.last, tick.current, r, now, clearings)
    ensures now == Next(s, tick).last && (r.Err? <==> CleanupFails(s.last, tick))
  {
  }

  method CleanupTick(ghost s: State, tick: Tick, last: Option<nat>) returns (failed: bool, now: Option<nat>)
    requires last == s.last && (last.Some? ==> last.value < U32_MAX)
    ensures now == Next(s, tick).last && (failed <==> CleanupFails(s.last, tick))
  {
    var r, clearings;
    r, now, clearings := RunCleanup(tick.world, last, tick.current);
    CleanupSteps(s, tick, r, now, clearings);
    failed := r.Err?;
  }

  /** Handle ticks up to the first whose cleanup fails with an error that ends the task. */
  method ClearOldRounds(ticks: seq<Tick>) returns (last: Option<nat>, handled: nat)
    ensures handled <= |ticks| && last == Run(ticks[..handled]).last
    ensures handled < |ticks| ==> handled > 0 && EndsTask(ticks, handled - 1)
    ensures forall j :: 0 <= j < handled - 1 ==> !EndsTask(ticks, j)
  {
    last, handled := None, 0;
    while handled < |ticks|
      invariant handled <= |ticks| && last == Run(ticks[..handled]).last
      invariant forall j :: 0 <= j < handled ==> !EndsTask(ticks, j)
    {
      ScansAreDisjoint(ticks[..handled]);
      assert ticks[..handled + 1][..handled] == ticks[..handled];
      var failed;
      failed, last := CleanupTick(Run(ticks[..handled]), ticks[handled], last);
      handled := handled + 1;
      if failed && ticks[handled - 1].world.critical {
        return;
      }
    }
  }
}
