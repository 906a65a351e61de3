/**
 Choosing an endpoint: the nested retry loops that connect to the first endpoint of the pool,
 in cyclic order, that accepts within its attempt budget.
 */
module Failover {
  import opened Common

  const MAX_CONNECTION_ATTEMPTS: nat := 3

  datatype ConnectError<E> = NoEndpoints | AttemptFailed(error: E)

  /** The answer of the `k`-th connection attempt, when that attempt goes to endpoint `idx`. */
  type Oracle<C, E> = (nat, nat) -> Result<C, E>

  /** The endpoint after `idx` in round-robin order. */
  function Successor(idx: nat, total: nat): nat
    requires total > 0
  {
    (idx + 1) % total
  }

  function Budget(total: nat): nat {
    if total > 1 then 1 else MAX_CONNECTION_ATTEMPTS
  }

  /** The endpoint tried `i` places after the start. */
  function Endpoint(total: nat, start: nat, i: nat): (idx: nat)
    requires total > 0
    ensures idx < total
  {
    (start + i) % total
  }

  /** The endpoint of every attempt the loops would make if all of them failed. */
  function Schedule(total: nat, start: nat): (s: seq<nat>)
  {
    if total == 0 then [] else
    if total == 1 then [0, 0, 0] else
      seq(total, i requires 0 <= i => Endpoint(total, start, i))
  }

  /** Attempt `k` goes to endpoint `tried[k]`, for every `k`, and none of them succeeds. */
  predicate AllFail<C, E>(oracle: Oracle<C, E>, tried: seq<nat>) {
    forall k :: 0 <= k < |tried| ==> oracle(tried[k], k).Err?
  }

  method ConnectWithFailover<C, E>(total: nat, start: nat, oracle: Oracle<C, E>)
    returns (r: Result<(C, nat), ConnectError<E>>, tried: seq<nat>)
    ensures tried <= Schedule(total, start)
    ensures match r
            case Ok((client, idx)) =>
              && tried != []
              && var last := |tried| - 1;
              && idx == tried[last]
              && oracle(idx, last) == Ok(client)
              && AllFail(oracle, tried[..last])
            case Err(NoEndpoints) => total == 0
            case Err(AttemptFailed(e)) =>
              && tried == Schedule(total, start) != []
              && AllFail(oracle, tried)
              && oracle(tried[|tried| - 1], |tried| - 1) == Err(e)
    ensures r.Err? ==> |tried| == if total == 1 then 3 else total
    ensures total == 1 ==> (r.Ok? <==> exists k :: 0 <= k < 3 && oracle(0, k).Ok?)
  {
    var lastError: Option<E> := None;
    var maxAttempts := Budget(total);
    ghost var schedule := Schedule(total, start);
    tried := [];
    for i := 0 to total
      invariant |tried| == if total > 1 then i else 3 * i
      invariant Progress(oracle, schedule, tried, lastError)
    {
      var idx := Endpoint(total, start, i);
      for attempt := 0 to maxAttempts
        invariant |tried| == if total > 1 then i + attempt else attempt
        invariant Progress(oracle, schedule, tried, lastError)
      {
        var outcome := oracle(idx, |tried|);
        ScheduleAt(total, start, i, attempt);
        Extend(oracle, schedule, tried, lastError);
        tried := tried + [idx];
        match outcome {
          case Ok(client) =>
            OneEndpoint(oracle, schedule, tried);
            return Ok((client, idx)), tried;
          case Err(e) => lastError := Some(e);
        }
      }
    }
    OneEndpoint(oracle, schedule, tried);
    r := Err(if lastError.Some? then AttemptFailed(lastError.value) else NoEndpoints);
  }

  /** A single endpoint is asked three times. */
  lemma {:induction false} OneEndpoint<C, E>(oracle: Oracle<C, E>, schedule: seq<nat>, tried: seq<nat>)
    requires tried <= schedule
    ensures schedule == [0, 0, 0] && tried != [] && oracle(tried[|tried| - 1], |tried| - 1).Ok? ==>
      exists k :: 0 <= k < 3 && oracle(0, k).Ok?
    ensures schedule == [0, 0, 0] && |tried| == 3 && AllFail(oracle, tried) ==>
      forall k :: 0 <= k < 3 ==> oracle(0, k).Err?
  {
    assert forall i :: 0 <= i < |tried| ==> tried[i] == schedule[i];
    if schedule == [0, 0, 0] {
      assert forall i :: 0 <= i < 3 ==> schedule[i] == 0;
      forall k | 0 <= k < 3 && |tried| == 3 && AllFail(oracle, tried) ensures oracle(0, k).Err? {
        assert oracle(tried[k], k).Err?;
      }
    }
  }

  /** All attempts so far followed the schedule and failed, the last one with `lastError`. */
  predicate Progress<C, E(==)>(oracle: Oracle<C, E>, schedule: seq<nat>, tried: seq<nat>, lastError: Option<E>) {
    && tried <= schedule
    && AllFail(oracle, tried)
    && (lastError.None? <==> tried == [])
    && (lastError.Some? ==> oracle(tried[|tried| - 1], |tried| - 1).Err?
                            && oracle(tried[|tried| - 1], |tried| - 1).error == lastError.value)
  }

  lemma {:induction false} ScheduleAt(total: nat, start: nat, i: nat, attempt: nat)
    requires i < total && attempt < Budget(total)
    ensures var k := if total > 1 then i + attempt else attempt;
            k < |Schedule(total, start)| && Schedule(total, start)[k] == Endpoint(total, start, i)
  {
  }

  lemma {:induction false} Extend<C, E>(oracle: Oracle<C, E>, schedule: seq<nat>, tried: seq<nat>, lastError: Option<E>)
    requires Progress(oracle, schedule, tried, lastError) && |tried| < |schedule|
    ensures var idx := schedule[|tried|]; var more := tried + [idx];
            && more <= schedule && more[..|tried|] == tried
            && (oracle(idx, |tried|).Err? ==> Progress(oracle, schedule, more, Some(oracle(idx, |tried|).error)))
  {
  }

  lemma {:induction false} MulMono(n: nat, x: int, y: int)
    requires x <= y
    ensures n * x <= n * y
  {
    assert n * (y - x) >= 0;
  }

  lemma {:induction false} ModOf(a: int, q: int, r: nat, n: nat)
    requires r < n && a == n * q + r
    ensures a % n == r
  {
    var p := a / n;
    if p > q {
      MulMono(n, q + 1, p);
    } else if p < q {
      MulMono(n, p + 1, q);
    }
  }

  /** Moving `d < n` places around a cycle of length `n`. */
  lemma {:induction false} ModAdd(a: nat, d: nat, n: nat)
    requires d < n
    ensures (a + d) % n == if a % n + d < n then a % n + d else a % n + d - n
  {
    if a % n + d < n {
      ModOf(a + d, a / n, a % n + d, n);
    } else {
      ModOf(a + d, a / n + 1, a % n + d - n, n);
    }
  }

  /** From any start, a pool of several endpoints is visited exactly once each, in cyclic order. */
  lemma {:induction false} ScheduleVisitsEachOnce(total: nat, start: nat)
    requires total > 1
    ensures var s := Schedule(total, start);
            && |s| == total && Distinct(s) && Elements(s) == Below(total)
            && s[0] == start % total
            && forall k :: 0 < k < total ==> s[k] == Successor(s[k - 1], total)
  {
    var s := Schedule(total, start);
    forall i, j | 0 <= i < j < |s| ensures s[i] != s[j] {
      ScheduleDiffers(total, start, i, j);
    }
    DistinctCardinality(s);
    SubsetEqual(Elements(s), Below(total));
    forall k | 0 < k < total ensures s[k] == Successor(s[k - 1], total) {
      ScheduleNext(total, start, k);
    }
  }

  lemma {:induction false} ScheduleDiffers(total: nat, start: nat, i: nat, j: nat)
    requires i < j < total
    ensures Schedule(total, start)[i] != Schedule(total, start)[j]
  {
    ModAdd(start + i, j - i, total);
    assert start + i + (j - i) == start + j;
  }

  lemma {:induction false} ScheduleNext(total: nat, start: nat, k: nat)
    requires 0 < k < total
    ensures Schedule(total, start)[k] == Successor(Schedule(total, start)[k - 1], total)
  {
    var a := start + (k - 1);
    ModNext(a, total);
    assert a + 1 == start + k;
  }

  lemma {:induction false} ModNext(a: nat, n: nat)
    requires n > 1
    ensures (a + 1) % n == (a % n + 1) % n
  {
    ModAdd(a, 1, n);
    ModAdd(a % n, 1, n);
    ModOf(a % n, 0, a % n, n);
  }

  lemma {:induction false} SubsetEqual<T>(a: set<T>, b: set<T>)
    requires a <= b && |a| >= |b|
    ensures a == b
  {
    assert |b - a| == |b| - |a|;
  }

  /**
   One endpoint that accepts whenever it is asked is enough: the attempts of no run of the loops
   can all fail, so the pool never reports an error.
   */
  lemma {:induction false} OneGoodEndpointSuffices<C, E>(total: nat, start: nat, oracle: Oracle<C, E>, good: nat)
    requires good < total
    requires forall k: nat :: oracle(good, k).Ok?
    ensures !AllFail(oracle, Schedule(total, start))
  {
    var s := Schedule(total, start);
    if total > 1 {
      ScheduleVisitsEachOnce(total, start);
      assert good in Elements(s);
      var k :| 0 <= k < |s| && s[k] == good;
      assert oracle(s[k], k).Ok?;
    } else {
      assert oracle(s[0], 0).Ok?;
    }
  }

  /** The attempts of a successful search, as `ConnectWithFailover` reports them. */
  ghost predicate Accepted<C, E>(total: nat, start: nat, oracle: Oracle<C, E>, tried: seq<nat>) {
    && tried != [] && tried <= Schedule(total, start)
    && oracle(tried[|tried| - 1], |tried| - 1).Ok? && AllFail(oracle, tried[..|tried| - 1])
  }

  /** How many endpoints a successful search asked before the one that accepted. */
  function Refusals(total: nat, tried: seq<nat>): nat
    requires tried != []
  {
    if total > 1 then |tried| - 1 else 0
  }

  /** A search ends at the first endpoint in cyclic order that accepts: every one before it was asked and refused. */
  lemma {:induction false} FirstToAccept<C, E>(total: nat, start: nat, oracle: Oracle<C, E>, tried: seq<nat>)
    requires Accepted(total, start, oracle, tried)
    ensures total > 0 && Refusals(total, tried) < total
    ensures tried[|tried| - 1] == Endpoint(total, start, Refusals(total, tried))
    ensures forall i :: 0 <= i < Refusals(total, tried) ==>
      tried[i] == Endpoint(total, start, i) && oracle(tried[i], i).Err?
  {
    var s := Schedule(total, start);
    assert forall i :: 0 <= i < |tried| ==> tried[i] == s[i];
    var prefix := tried[..|tried| - 1];
    assert forall i :: 0 <= i < |prefix| ==> prefix[i] == tried[i];
  }
}
