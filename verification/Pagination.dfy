/**
 From election data to snapshots: cut the voters to the snapshot capacity by stake, spread them
 over pages, and put the pages in the order the miner expects.
 */
module Pagination {
  import opened Common

  datatype Source = FromSnapshot | FromStaking

  datatype Config = Config(pages: nat, votersPerPage: nat, targetsPerPage: nat, maxVotes: nat)

  function Capacity(cfg: Config): nat {
    cfg.pages * cfg.votersPerPage
  }

  /**
   A result of the unstable sort by descending stake: every index once, no stake before a larger
   one. Ties may be resolved in any way.
   */
  ghost predicate IsRanking(voters: seq<Voter>, ranking: seq<nat>) {
    && |ranking| == |voters|
    && Distinct(ranking)
    && InRange(ranking, |voters|)
    && forall i, j :: 0 <= i < j < |ranking| ==> voters[ranking[i]].value.stake >= voters[ranking[j]].value.stake
  }

  ghost predicate Increasing(s: seq<nat>) {
    forall i, j :: 0 <= i < j < |s| ==> s[i] < s[j]
  }

  /** The elements of `list` at the given indices. */
  function Pick<T>(list: seq<T>, indices: seq<nat>): seq<T>
    requires InRange(indices, |list|)
  {
    seq(|indices|, i requires 0 <= i < |indices| => list[indices[i]])
  }

  /** Drop the voters ranked past the capacity, keeping the others in their order. */
  method CutToCapacity(voters: seq<Voter>, capacity: nat, ranking: seq<nat>)
    returns (kept: seq<Voter>, ghost indices: seq<nat>)
    requires IsRanking(voters, ranking) && capacity <= |voters|
    ensures Increasing(indices) && InRange(indices, |voters|)
    ensures kept == Pick(voters, indices)
    ensures Elements(indices) == Elements(ranking[..capacity])
  {
    var dropped := Elements(ranking[capacity..]);
    kept := [];
    indices := [];
    for index := 0 to |voters|
      invariant Increasing(indices)
      invariant InRange(indices, index)
      invariant kept == Pick(voters, indices)
      invariant forall i :: i in indices <==> 0 <= i < index && i !in dropped
    {
      if index !in dropped {
        kept, indices := kept + [voters[index]], indices + [index];
      }
    }
    RankingSplits(voters, ranking, capacity);
  }

  /** The ranking's head and tail split the indices. */
  lemma {:induction false} RankingSplits(voters: seq<Voter>, ranking: seq<nat>, capacity: nat)
    requires IsRanking(voters, ranking) && capacity <= |voters|
    ensures forall i: nat :: i in ranking[..capacity] <==> i < |voters| && i !in ranking[capacity..]
  {
    forall i: nat ensures i in ranking[..capacity] <==> i < |voters| && i !in ranking[capacity..] {
      SplitsAt(ranking, capacity, |voters|, i);
    }
  }

  lemma {:induction false} SplitsAt(s: seq<nat>, k: nat, n: nat, i: nat)
    requires k <= n == |s| && Distinct(s) && forall p :: 0 <= p < n ==> s[p] < n
    ensures i in s[..k] <==> i < n && i !in s[k..]
  {
    if i in s[..k] {
      var p :| 0 <= p < k && s[..k][p] == i;
      assert s[p] == i && forall q :: 0 <= q < n - k ==> s[k..][q] == s[k + q];
    } else if i < n {
      CoversAll(s, n, i);
      assert s == s[..k] + s[k..];
    }
  }

  lemma {:induction false} CoversAll(s: seq<nat>, n: nat, i: nat)
    requires Distinct(s) && |s| == n && (forall k :: 0 <= k < n ==> s[k] < n) && i < n
    ensures i in s
  {
    DistinctCardinality(s);
    BoundedSetCardinality(Elements(s) + {i}, n);
  }

  // ---- pages ----

  function Truncate(v: Voter, maxVotes: nat): Voter {
    v.(value := v.value.(targets := Take(v.value.targets, maxVotes)))
  }

  function TruncateAll(voters: seq<Voter>, maxVotes: nat): seq<Voter> {
    seq(|voters|, i requires 0 <= i < |voters| => Truncate(voters[i], maxVotes))
  }

  /** The voters unchanged but for their targets, of which only the first `maxVotes` are left. */
  ghost predicate Trimmed(voters: seq<Voter>, whole: seq<Voter>, maxVotes: nat) {
    && |voters| == |whole|
    && forall k :: 0 <= k < |voters| ==>
         && voters[k].account == whole[k].account
         && voters[k].value.stake == whole[k].value.stake
         && voters[k].value.targets == whole[k].value.targets[..Min(|whole[k].value.targets|, maxVotes)]
  }

  /** Every page but the last is full, and none is empty. */
  ghost predicate WellPaged<T>(pages: seq<seq<T>>, size: nat) {
    && (forall p :: 0 <= p < |pages| ==> 0 < |pages[p]| <= size)
    && forall p :: 0 <= p < |pages| - 1 ==> |pages[p]| == size
  }

  lemma {:induction false} FlattenSnoc<T>(pages: seq<seq<T>>, last: seq<T>)
    ensures Flatten(pages + [last]) == Flatten(pages) + last
  {
    FlattenAppend(pages, [last]);
    assert Flatten([last]) == last + Flatten([]);
  }

  /** These voters have been spread over pages; a page size of zero leaves one empty page for each. */
  ghost predicate Paged(pages: seq<seq<Voter>>, voters: seq<Voter>, size: nat) {
    if size > 0 then WellPaged(pages, size) && Flatten(pages) == voters
    else |pages| == |voters| && forall p :: 0 <= p < |pages| ==> pages[p] == []
  }

  lemma {:induction false} NewPage(pages: seq<seq<Voter>>, voters: seq<Voter>, voter: Voter, size: nat)
    requires Paged(pages, voters, size) && (pages == [] || |pages[|pages| - 1]| >= size)
    ensures Paged(pages + [Take([voter], size)], voters + [voter], size)
  {
    FlattenSnoc(pages, Take([voter], size));
  }

  lemma {:induction false} LastPage(pages: seq<seq<Voter>>, voters: seq<Voter>, voter: Voter, size: nat)
    requires Paged(pages, voters, size) && pages != [] && |pages[|pages| - 1]| < size
    ensures Paged(pages[..|pages| - 1] + [pages[|pages| - 1] + [voter]], voters + [voter], size)
  {
    var init, last := pages[..|pages| - 1], pages[|pages| - 1];
    assert pages == init + [last];
    FlattenSnoc(init, last);
    FlattenSnoc(init, last + [voter]);
    Associative(Flatten(init), last, [voter]);
  }

  method Paginate(voters: seq<Voter>, cfg: Config) returns (pages: seq<seq<Voter>>)
    ensures cfg.votersPerPage > 0 ==>
              WellPaged(pages, cfg.votersPerPage) && Trimmed(Flatten(pages), voters, cfg.maxVotes)
    ensures cfg.votersPerPage == 0 ==> |pages| == |voters| && forall p :: 0 <= p < |pages| ==> pages[p] == []
  {
    var size := cfg.votersPerPage;
    pages := [];
    for i := 0 to |voters|
      invariant Paged(pages, TruncateAll(voters[..i], cfg.maxVotes), size)
    {
      var voter := Truncate(voters[i], cfg.maxVotes);
      assert TruncateAll(voters[..i + 1], cfg.maxVotes) == TruncateAll(voters[..i], cfg.maxVotes) + [voter];
      if |pages| == 0 || |pages[|pages| - 1]| >= size {
        NewPage(pages, TruncateAll(voters[..i], cfg.maxVotes), voter, size);
        pages := pages + [Take([voter], size)];
      } else {
        LastPage(pages, TruncateAll(voters[..i], cfg.maxVotes), voter, size);
        pages := pages[..|pages| - 1] + [pages[|pages| - 1] + [voter]];
      }
    }
    assert voters[..|voters|] == voters;
  }

  function Reverse<T>(s: seq<T>): (r: seq<T>)
    ensures |r| == |s| && forall i :: 0 <= i < |s| ==> r[i] == s[|s| - 1 - i]
  {
    if s == [] then [] else [s[|s| - 1]] + Reverse(s[..|s| - 1])
  }

  lemma {:induction false} PagesCount<T>(pages: seq<seq<T>>, size: nat)
    requires WellPaged(pages, size) && size > 0
    ensures pages != [] ==> (|pages| - 1) * size < |Flatten(pages)| <= |pages| * size
    ensures pages == [] ==> Flatten(pages) == []
  {
    if |pages| == 1 {
      assert Flatten(pages) == pages[0] + Flatten(pages[1..]);
      assert pages[1..] == [];
    } else if |pages| > 1 {
      PagesCount(pages[1..], size);
      assert (|pages| - 1) * size == (|pages| - 2) * size + size;
      assert |pages| * size == (|pages| - 1) * size + size;
    }
  }

  /** Content and page size determine the pages: there is only one way to fill them. */
  lemma {:induction false} PagesDetermined<T>(a: seq<seq<T>>, b: seq<seq<T>>, size: nat)
    requires size > 0 && WellPaged(a, size) && WellPaged(b, size) && Flatten(a) == Flatten(b)
    ensures a == b
  {
    if a == [] || b == [] {
      assert a == b;
    } else {
      FirstPage(a, size);
      FirstPage(b, size);
      assert a[0] == b[0];
      assert Flatten(a[1..]) == Flatten(a)[|a[0]|..] && Flatten(b[1..]) == Flatten(b)[|b[0]|..];
      PagesDetermined(a[1..], b[1..], size);
      assert a == [a[0]] + a[1..] && b == [b[0]] + b[1..];
    }
  }

  lemma {:induction false} FirstPage<T>(pages: seq<seq<T>>, size: nat)
    requires size > 0 && WellPaged(pages, size) && pages != []
    ensures pages[0] == Take(Flatten(pages), size) && WellPaged(pages[1..], size)
  {
    if |pages| == 1 {
      assert Flatten(pages) == pages[0];
    } else {
      assert |pages[0]| == size;
    }
  }

  // ---- the conversion ----

  method SelectVoters(voters: seq<Voter>, cfg: Config, ranking: seq<nat>)
    returns (kept: seq<Voter>, ghost indices: seq<nat>)
    requires IsRanking(voters, ranking)
    ensures Increasing(indices) && InRange(indices, |voters|)
    ensures kept == Pick(voters, indices)
    ensures |indices| == if 0 < Capacity(cfg) < |voters| then Capacity(cfg) else |voters|
    ensures Elements(indices)
         == Elements(if 0 < Capacity(cfg) < |voters| then ranking[..Capacity(cfg)] else ranking)
  {
    var capacity := Capacity(cfg);
    if capacity > 0 && |voters| > capacity {
      kept, indices := CutToCapacity(voters, capacity, ranking);
      KeptCount(voters, capacity, ranking, indices);
    } else {
      kept, indices := voters, seq(|voters|, i => i);
      assert kept == Pick(voters, indices);
      RankingSplits(voters, ranking, |voters|);
      assert ranking[..|voters|] == ranking;
      assert forall i: nat :: i < |voters| ==> indices[i] == i;
    }
  }

  method Convert(candidates: seq<Candidate>, voters: seq<Voter>, source: Source, cfg: Config, ranking: seq<nat>)
    returns (targets: seq<Account>, pages: seq<seq<Voter>>, ghost indices: seq<nat>)
    requires IsRanking(voters, ranking)
    ensures targets == Take(seq(|candidates|, i requires 0 <= i < |candidates| => candidates[i].account), cfg.targetsPerPage)
    ensures Increasing(indices) && InRange(indices, |voters|)
    ensures |indices| == if 0 < cfg.pages * cfg.votersPerPage < |voters| then cfg.pages * cfg.votersPerPage else |voters|
    ensures Elements(indices) == Elements(ranking[..|indices|])
    ensures var unreversed := if source.FromStaking? then Reverse(pages) else pages;
            cfg.votersPerPage > 0 ==>
              && WellPaged(unreversed, cfg.votersPerPage)
              && Trimmed(Flatten(unreversed), Pick(voters, indices), cfg.maxVotes)
    ensures cfg.votersPerPage == 0 ==> |pages| == |voters| && forall p :: 0 <= p < |pages| ==> pages[p] == []
    ensures |pages| <= cfg.pages <==> cfg.pages * cfg.votersPerPage > 0 || |voters| <= cfg.pages
    ensures cfg.pages * cfg.votersPerPage > 0 ==> Take(pages, cfg.pages) == pages
  {
    var accounts := seq(|candidates|, i requires 0 <= i < |candidates| => candidates[i].account);
    targets := Take(accounts, cfg.targetsPerPage);
    var kept;
    kept, indices := SelectVoters(voters, cfg, ranking);
    assert ranking[..|voters|] == ranking;
    pages := Paginate(kept, cfg);
    PageBound(cfg, pages, |kept|, |voters|);
    if source.FromStaking? {
      ghost var before := pages;
      pages := Reverse(pages);
      assert Reverse(pages) == before;
    }
  }

  lemma {:induction false} KeptCount(voters: seq<Voter>, capacity: nat, ranking: seq<nat>, indices: seq<nat>)
    requires IsRanking(voters, ranking) && capacity <= |voters|
    requires Increasing(indices) && Elements(indices) == Elements(ranking[..capacity])
    ensures |indices| == capacity
  {
    DistinctCardinality(indices);
    DistinctCardinality(ranking[..capacity]);
  }

  lemma {:induction false} PageBound(cfg: Config, pages: seq<seq<Voter>>, kept: nat, all: nat)
    requires cfg.votersPerPage > 0 ==> WellPaged(pages, cfg.votersPerPage) && |Flatten(pages)| == kept
    requires cfg.votersPerPage == 0 ==> |pages| == kept
    requires kept == if 0 < Capacity(cfg) < all then Capacity(cfg) else all
    ensures |pages| <= cfg.pages <==> Capacity(cfg) > 0 || all <= cfg.pages
  {
    var size := cfg.votersPerPage;
    if size > 0 {
      PagesCount(pages, size);
      if cfg.pages > 0 {
        MulAtLeast(cfg.pages, 1, size);
        if |pages| > cfg.pages {
          MulAtLeast(|pages| - 1, cfg.pages, size);
        }
      }
    }
  }

  lemma {:induction false} MulAtLeast(a: nat, b: nat, c: nat)
    requires a >= b
    ensures a * c >= b * c
  {
    assert (a - b) * c >= 0;
  }

  // ---- what the cut means ----

  /** No dropped voter has more stake than a kept one. */
  lemma {:induction false} WeakestAreDropped(
    voters: seq<Voter>, capacity: nat, ranking: seq<nat>, indices: seq<nat>, k: nat, d: nat)
    requires IsRanking(voters, ranking) && capacity <= |voters|
    requires Elements(indices) == Elements(ranking[..capacity])
    requires k in indices && d < |voters| && d !in indices
    ensures k < |voters| && voters[k].value.stake >= voters[d].value.stake
  {
    RankingSplits(voters, ranking, capacity);
    assert k in Elements(indices) && d !in Elements(indices);
    var p :| 0 <= p < capacity && ranking[..capacity][p] == k;
    var q :| 0 <= q < |ranking[capacity..]| && ranking[capacity..][q] == d;
    assert ranking[p] == k && ranking[capacity + q] == d;
  }

  function Stakes(voters: seq<Voter>, indices: seq<nat>): seq<nat>
    requires InRange(indices, |voters|)
  {
    seq(|indices|, i requires 0 <= i < |indices| => voters[indices[i]].value.stake)
  }

  function Without<T>(s: seq<T>, p: nat): seq<T>
    requires p < |s|
  {
    s[..p] + s[p + 1..]
  }

  /** Two duplicate-free index lists over the same set carry the same stakes. */
  lemma {:induction false} SameIndicesSameStakes(voters: seq<Voter>, a: seq<nat>, b: seq<nat>)
    requires Distinct(a) && Distinct(b) && Elements(a) == Elements(b)
    requires InRange(a, |voters|) && InRange(b, |voters|)
    ensures multiset(Stakes(voters, a)) == multiset(Stakes(voters, b))
    decreases |a|
  {
    DistinctCardinality(a);
    DistinctCardinality(b);
    if a != [] {
      assert a[0] in Elements(b);
      var p :| 0 <= p < |b| && b[p] == a[0];
      RemoveOne(a, 0, |voters|);
      RemoveOne(b, p, |voters|);
      SameIndicesSameStakes(voters, Without(a, 0), Without(b, p));
      StakesWithout(voters, a, 0);
      StakesWithout(voters, b, p);
    }
  }

  lemma {:induction false} StakesWithout(voters: seq<Voter>, b: seq<nat>, p: nat)
    requires p < |b| && InRange(b, |voters|) && InRange(Without(b, p), |voters|)
    ensures multiset(Stakes(voters, b))
         == multiset{voters[b[p]].value.stake} + multiset(Stakes(voters, Without(b, p)))
  {
    var x, y := Stakes(voters, b[..p]), Stakes(voters, b[p + 1..]);
    assert Stakes(voters, b) == x + [voters[b[p]].value.stake] + y;
    assert Stakes(voters, Without(b, p)) == x + y;
  }

  lemma {:induction false} RemoveOne(b: seq<nat>, p: nat, n: nat)
    requires Distinct(b) && p < |b| && InRange(b, n)
    ensures Distinct(Without(b, p)) && InRange(Without(b, p), n) && |Without(b, p)| == |b| - 1
    ensures Elements(Without(b, p)) == Elements(b) - {b[p]}
  {
    var rest := Without(b, p);
    assert forall i :: 0 <= i < |rest| ==> rest[i] == if i < p then b[i] else b[i + 1];
    forall x | x in Elements(b) - {b[p]} ensures x in rest {
      var i :| 0 <= i < |b| && b[i] == x;
      assert rest[if i < p then i else i - 1] == x;
    }
  }

  ghost predicate Descending(s: seq<nat>) {
    forall i, j :: 0 <= i < j < |s| ==> s[i] >= s[j]
  }

  lemma {:induction false} MultisetTail(s: seq<nat>)
    requires s != []
    ensures multiset(s[1..]) == multiset(s) - multiset{s[0]}
    ensures Descending(s) ==> Descending(s[1..])
  {
    assert s == [s[0]] + s[1..];
  }

  /** A descending sequence is determined by its elements. */
  lemma {:induction false} SortedIsUnique(a: seq<nat>, b: seq<nat>)
    requires multiset(a) == multiset(b) && Descending(a) && Descending(b)
    ensures a == b
  {
    assert |a| == |multiset(a)| == |multiset(b)| == |b|;
    if a != [] {
      HeadIsMax(a, b);
      HeadIsMax(b, a);
      MultisetTail(a);
      MultisetTail(b);
      SortedIsUnique(a[1..], b[1..]);
      assert a == [a[0]] + a[1..] && b == [b[0]] + b[1..];
    }
  }

  lemma {:induction false} HeadIsMax(a: seq<nat>, b: seq<nat>)
    requires a != [] && b != [] && multiset(a) == multiset(b) && Descending(b)
    ensures a[0] <= b[0]
  {
    assert a[0] in multiset(a);
    assert a[0] in multiset(b);
    var i :| 0 <= i < |b| && b[i] == a[0];
  }

  /**
   However the sort resolves ties, the kept voters carry the same stakes: those of the first
   `capacity` places of the descending order.
   */
  lemma {:induction false} KeptStakesAreTop(
    voters: seq<Voter>, capacity: nat, r: seq<nat>, kept: seq<nat>, other: seq<nat>)
    requires IsRanking(voters, r) && IsRanking(voters, other) && capacity <= |voters|
    requires Increasing(kept) && Elements(kept) == Elements(r[..capacity])
    requires InRange(kept, |voters|)
    ensures multiset(Stakes(voters, kept)) == multiset(Stakes(voters, other[..capacity]))
  {
    RankingSplits(voters, r, |voters|);
    RankingSplits(voters, other, |voters|);
    assert r[..|voters|] == r && other[..|voters|] == other;
    assert Elements(r) == Elements(other);
    SameIndicesSameStakes(voters, r, other);
    SortedIsUnique(Stakes(voters, r), Stakes(voters, other));
    SameIndicesSameStakes(voters, kept, r[..capacity]);
    assert Stakes(voters, r[..capacity]) == Stakes(voters, r)[..capacity];
    assert Stakes(voters, other[..capacity]) == Stakes(voters, other)[..capacity];
  }

  lemma {:induction false} FlattenIndex<T>(pages: seq<seq<T>>, p: nat, i: nat) returns (k: nat)
    requires p < |pages| && i < |pages[p]|
    ensures k < |Flatten(pages)| && Flatten(pages)[k] == pages[p][i]
    ensures k == |Flatten(pages[..p])| + i
  {
    assert pages == pages[..p] + pages[p..];
    FlattenAppend(pages[..p], pages[p..]);
    k := |Flatten(pages[..p])| + i;
  }

  lemma {:induction false} FlattenMonotone<T>(pages: seq<seq<T>>, p: nat, q: nat)
    requires p < q <= |pages|
    ensures |Flatten(pages[..p])| + |pages[p]| <= |Flatten(pages[..q])|
  {
    FlattenSnoc(pages[..p], pages[p]);
    assert pages[..p + 1] == pages[..p] + [pages[p]];
    assert pages[..q] == pages[..p + 1] + pages[p + 1..q];
    FlattenAppend(pages[..p + 1], pages[p + 1..q]);
  }

  /**
   Voters that arrive strongest first end up, after the reversal for staking data, with the
   weakest on page 0: no voter has more stake than one on a later page.
   */
  lemma {:induction false} ReversedPagesAscend(
    voters: seq<Voter>, pages: seq<seq<Voter>>, maxVotes: nat, p: nat, q: nat, i: nat, j: nat)
    requires Trimmed(Flatten(Reverse(pages)), voters, maxVotes)
    requires forall a, b :: 0 <= a < b < |voters| ==> voters[a].value.stake >= voters[b].value.stake
    requires p < q < |pages| && i < |pages[p]| && j < |pages[q]|
    ensures pages[p][i].value.stake <= pages[q][j].value.stake
  {
    var r := Reverse(pages);
    var p', q' := |pages| - 1 - p, |pages| - 1 - q;
    assert r[p'] == pages[p] && r[q'] == pages[q];
    var a := FlattenIndex(r, q', j);
    var b := FlattenIndex(r, p', i);
    FlattenMonotone(r, q', p');
    assert a < b;
  }

  /** The failing side of the page bound: without room on any page, two voters take two pages where one is allowed. */
  method OverflowingPages() returns (pages: seq<seq<Voter>>)
    ensures |pages| > 1
  {
    var voters := [Entry(0, Vote(2, [])), Entry(1, Vote(1, []))];
    var targets;
    ghost var indices;
    targets, pages, indices := Convert([], voters, FromSnapshot, Config(1, 0, 0, 0), [0, 1]);
  }
}
