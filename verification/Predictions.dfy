/**
 The two prediction views built from a solution's paged supports: who backs each elected
 validator, and what each nominator's targets receive. Both are read off the same rows, once
 by validator and once, transposed, by nominator.
 */
module Predictions {
  import opened Common

  /** Stake put by one account; in a support, a backer and its part. */
  type Row = Entry<nat>

  datatype Support = Support(total: nat, voters: seq<Row>)

  type Supports = seq<Entry<Support>>

  /** Saturating u128 addition and its limit. */
  function Saturated(n: nat): nat {
    Min(n, U128_MAX)
  }

  function SatAdd(a: nat, b: nat): nat {
    Saturated(a + b)
  }

  // ---- sums over rows ----

  function RowsSum(rows: seq<Row>): nat {
    if rows == [] then 0 else RowsSum(rows[..|rows| - 1]) + rows[|rows| - 1].value
  }

  /** What `who` puts in, over all its rows. */
  function StakeOf(rows: seq<Row>, who: Account): nat {
    if rows == [] then 0 else
      StakeOf(rows[..|rows| - 1], who) + if rows[|rows| - 1].account == who then rows[|rows| - 1].value else 0
  }

  predicate Backs(rows: seq<Row>, who: Account) {
    exists i :: 0 <= i < |rows| && rows[i].account == who
  }

  /** All rows recorded for winner `w`, page by page. */
  function RowsOf(supports: Supports, w: Account): seq<Row> {
    if supports == [] then [] else
      var e := supports[|supports| - 1];
      RowsOf(supports[..|supports| - 1], w) + if e.account == w then e.value.voters else []
  }

  function TotalOf(supports: Supports, w: Account): nat {
    if supports == [] then 0 else
      var e := supports[|supports| - 1];
      TotalOf(supports[..|supports| - 1], w) + if e.account == w then e.value.total else 0
  }

  predicate Wins(supports: Supports, w: Account) {
    exists i :: 0 <= i < |supports| && supports[i].account == w
  }

  /** Totals and rows of a winner: nothing from nothing, one support's own, and added up page after page. */
  lemma {:induction false} MergingIsAdditive(a: Supports, b: Supports, e: Entry<Support>, w: Account)
    ensures TotalOf([], w) == 0 && RowsOf([], w) == []
    ensures TotalOf([e], w) == (if e.account == w then e.value.total else 0)
    ensures RowsOf([e], w) == if e.account == w then e.value.voters else []
    ensures TotalOf(a + b, w) == TotalOf(a, w) + TotalOf(b, w)
    ensures RowsOf(a + b, w) == RowsOf(a, w) + RowsOf(b, w)
    decreases |b|
  {
    var one: Supports := [e];
    assert one[..0] == [];
    if b == [] {
      assert a + b == a;
    } else {
      MergingIsAdditive(a, b[..|b| - 1], e, w);
      assert (a + b)[..|a + b| - 1] == a + b[..|b| - 1];
    }
  }

  // ---- merging the pages ----

  type Merged = map<Account, Support>

  ghost predicate IsMerge(supports: Supports, m: Merged) {
    && (forall w :: w in m <==> Wins(supports, w))
    && forall w :: w in m ==> m[w] == Support(Saturated(TotalOf(supports, w)), RowsOf(supports, w))
  }

  function Absorb(m: Merged, e: Entry<Support>): Merged {
    var entry := if e.account in m then m[e.account] else Support(0, []);
    m[e.account := Support(SatAdd(entry.total, e.value.total), entry.voters + e.value.voters)]
  }

  lemma {:induction false} AbsorbStep(supports: Supports, m: Merged, e: Entry<Support>)
    requires IsMerge(supports, m)
    ensures IsMerge(supports + [e], Absorb(m, e))
  {
    var more := supports + [e];
    assert more[..|supports|] == supports && more[|supports|] == e;
    assert forall i :: 0 <= i < |supports| ==> more[i] == supports[i];
    forall w ensures Wins(more, w) <==> Wins(supports, w) || w == e.account {
      if Wins(supports, w) {
        var i :| 0 <= i < |supports| && supports[i].account == w;
        assert more[i].account == w;
      }
    }
    if !Wins(supports, e.account) {
      NoWinNoRows(supports, e.account);
    }
  }

  lemma {:induction false} NoWinNoRows(supports: Supports, w: Account)
    requires !Wins(supports, w)
    ensures RowsOf(supports, w) == [] && TotalOf(supports, w) == 0
  {
    if supports != [] {
      var init := supports[..|supports| - 1];
      assert forall i :: 0 <= i < |init| ==> init[i] == supports[i];
      NoWinNoRows(init, w);
    }
  }

  method MergeSupports(pages: seq<Supports>) returns (m: Merged)
    ensures IsMerge(Flatten(pages), m)
  {
    m := map[];
    ghost var done: Supports := [];
    for p := 0 to |pages|
      invariant done == Flatten(pages[..p]) && IsMerge(done, m)
    {
      var page := pages[p];
      for i := 0 to |page|
        invariant done == Flatten(pages[..p]) + page[..i] && IsMerge(done, m)
      {
        AbsorbStep(done, m, page[i]);
        Associative(Flatten(pages[..p]), page[..i], [page[i]]);
        assert page[..i] + [page[i]] == page[..i + 1];
        m, done := Absorb(m, page[i]), done + [page[i]];
      }
      assert pages[..p + 1] == pages[..p] + [page] && page[..|page|] == page;
      FlattenAppend(pages[..p], [page]);
      assert Flatten([page]) == page + Flatten([]);
    }
    assert pages[..|pages|] == pages;
  }

  // ---- transposing ----

  datatype Pair = Pair(nominator: Account, validator: Account)

  /** Allocated stake by nominator and validator. */
  type Allocation = map<Pair, nat>

  /** The rows of the winners in `done` have been entered, and those of `w` before row `i`. */
  ghost predicate Entered(m: Merged, done: set<Account>, w: Account, i: nat, alloc: Allocation)
    requires w in m && i <= |m[w].voters|
  {
    forall p: Pair ::
      && (p in alloc <==> CellRows(m, done, w, i, p).Some?)
      && (p in alloc ==> alloc[p] == CellRows(m, done, w, i, p).value)
  }

  /** The cell a nominator and a validator have once the rows entered so far are added up. */
  function CellRows(m: Merged, done: set<Account>, w: Account, i: nat, p: Pair): Option<nat>
    requires w in m && i <= |m[w].voters|
  {
    if p.validator == w && w !in done then Cell(m[w].voters[..i], p.nominator)
    else if p.validator in done && p.validator in m then Cell(m[p.validator].voters, p.nominator)
    else None
  }

  function Cell(rows: seq<Row>, v: Account): Option<nat> {
    if Backs(rows, v) then Some(Saturated(StakeOf(rows, v))) else None
  }

  ghost predicate IsTransposed(m: Merged, alloc: Allocation) {
    && (forall p: Pair :: p in alloc <==> p.validator in m && Backs(m[p.validator].voters, p.nominator))
    && forall p: Pair :: p in alloc ==> alloc[p] == Saturated(StakeOf(m[p.validator].voters, p.nominator))
  }

  lemma {:induction false} CellStep(rows: seq<Row>, i: nat, v: Account)
    requires i < |rows|
    ensures Cell(rows[..i + 1], v)
         == if v != rows[i].account then Cell(rows[..i], v)
            else Some(SatAdd(if Cell(rows[..i], v).Some? then Cell(rows[..i], v).value else 0, rows[i].value))
  {
    var before, after := rows[..i], rows[..i + 1];
    assert after[..i] == before && after[i] == rows[i];
    assert forall k :: 0 <= k < i ==> after[k] == before[k];
    if Backs(before, v) {
      var k :| 0 <= k < i && before[k].account == v;
      assert after[k].account == v;
    } else {
      NoBackNoStake(before, v);
    }
  }

  lemma {:induction false} NoBackNoStake(rows: seq<Row>, v: Account)
    requires !Backs(rows, v)
    ensures StakeOf(rows, v) == 0
  {
    if rows != [] {
      var init := rows[..|rows| - 1];
      assert forall i :: 0 <= i < |init| ==> init[i] == rows[i];
      NoBackNoStake(init, v);
    }
  }

  method EnterWinner(m: Merged, w: Account, ghost done: set<Account>, before: Allocation) returns (alloc: Allocation)
    requires w in m && w !in done && Entered(m, done, w, 0, before)
    ensures Entered(m, done, w, |m[w].voters|, alloc)
  {
    alloc := before;
    var rows := m[w].voters;
    for i := 0 to |rows|
      invariant Entered(m, done, w, i, alloc)
    {
      var key := Pair(rows[i].account, w);
      ghost var was := alloc;
      var existing := if key in alloc then alloc[key] else 0;
      alloc := alloc[key := if key in alloc then SatAdd(existing, rows[i].value) else Saturated(rows[i].value)];
      forall p: Pair
        ensures p in alloc <==> CellRows(m, done, w, i + 1, p).Some?
        ensures p in alloc ==> alloc[p] == CellRows(m, done, w, i + 1, p).value
      {
        CellStep(rows, i, p.nominator);
        assert p in was <==> CellRows(m, done, w, i, p).Some?;
      }
    }
  }

  method Transpose(m: Merged) returns (alloc: Allocation)
    ensures IsTransposed(m, alloc)
  {
    alloc := map[];
    var rest := m.Keys;
    ghost var done: set<Account> := {};
    while rest != {}
      invariant rest + done == m.Keys && rest !! done
      invariant forall p: Pair :: p in alloc <==> p.validator in done && Backs(m[p.validator].voters, p.nominator)
      invariant forall p: Pair :: p in alloc ==> alloc[p] == Saturated(StakeOf(m[p.validator].voters, p.nominator))
      decreases rest
    {
      var w :| w in rest;
      assert m[w].voters[..0] == [];
      alloc := EnterWinner(m, w, done, alloc);
      assert m[w].voters[..|m[w].voters|] == m[w].voters;
      rest, done := rest - {w}, done + {w};
    }
  }

  // ---- conservation ----

  ghost function SumMap<K(!new)>(m: map<K, nat>): nat {
    if m == map[] then 0 else
      var k :| k in m;
      m[k] + SumMap(m - {k})
  }

  lemma {:induction false} SumRemove<K(!new)>(m: map<K, nat>, k: K)
    requires k in m
    ensures SumMap(m) == m[k] + SumMap(m - {k})
    decreases m.Keys
  {
    var j :| j in m && SumMap(m) == m[j] + SumMap(m - {j});
    if j != k {
      SumRemove(m - {j}, k);
      SumRemove(m - {k}, j);
      assert m - {j} - {k} == m - {k} - {j};
    }
  }

  lemma {:induction false} SumPut<K(!new)>(m: map<K, nat>, k: K, x: nat)
    ensures SumMap(m[k := x]) == x + SumMap(m - {k})
    ensures k !in m ==> m - {k} == m
  {
    SumRemove(m[k := x], k);
    assert m[k := x] - {k} == m - {k};
  }

  lemma {:induction false} UnionMinus<K(!new)>(a: map<K, nat>, b: map<K, nat>, k: K)
    requires a.Keys !! b.Keys && k in a
    ensures k in a + b && (a + b)[k] == a[k]
    ensures (a + b) - {k} == (a - {k}) + b
  {
    assert k !in b;
  }

  lemma {:induction false} SumUnion<K(!new)>(a: map<K, nat>, b: map<K, nat>)
    requires a.Keys !! b.Keys
    ensures SumMap(a + b) == SumMap(a) + SumMap(b)
    decreases a.Keys
  {
    if a == map[] {
      assert a + b == b;
    } else {
      var k :| k in a;
      UnionMinus(a, b, k);
      SumUnion(a - {k}, b);
      SumRemove(a, k);
      SumRemove(a + b, k);
    }
  }

  /** Saturating every value loses something exactly when some value saturates. */
  lemma {:induction false} SumSaturated<K(!new)>(m: map<K, nat>, sat: map<K, nat>)
    requires sat.Keys == m.Keys && forall k :: k in m ==> sat[k] == Saturated(m[k])
    ensures SumMap(sat) <= SumMap(m)
    ensures SumMap(sat) == SumMap(m) <==> forall k :: k in m ==> m[k] <= U128_MAX
    decreases m.Keys
  {
    if m == map[] {
      assert sat == map[];
    } else {
      var k :| k in m;
      SumRemove(m, k);
      SumRemove(sat, k);
      SumSaturated(m - {k}, sat - {k});
      assert forall j :: j in m ==> j == k || j in m - {k};
    }
  }

  /** Exact cells of one winner's rows. */
  function Column(rows: seq<Row>, w: Account): (c: Allocation)
    ensures forall p: Pair :: p in c <==> p.validator == w && Backs(rows, p.nominator)
    ensures forall p: Pair :: p in c ==> c[p] == StakeOf(rows, p.nominator)
  {
    if rows == [] then map[] else
      var init, r := rows[..|rows| - 1], rows[|rows| - 1];
      ColumnStep(init, r);
      assert rows == init + [r];
      Column(init, w)[Pair(r.account, w) := StakeOf(rows, r.account)]
  }

  lemma {:induction false} ColumnStep(init: seq<Row>, r: Row)
    ensures forall v: Account :: Backs(init + [r], v) <==> Backs(init, v) || v == r.account
    ensures forall v: Account :: StakeOf(init + [r], v) == StakeOf(init, v) + if v == r.account then r.value else 0
  {
    var rows := init + [r];
    assert rows[..|init|] == init && rows[|init|] == r;
    forall v: Account | Backs(init, v) ensures Backs(rows, v) {
      var k :| 0 <= k < |init| && init[k].account == v;
      assert rows[k].account == v;
    }
  }

  lemma {:induction false} ColumnSum(rows: seq<Row>, w: Account)
    ensures SumMap(Column(rows, w)) == RowsSum(rows)
  {
    if rows != [] {
      var init, r := rows[..|rows| - 1], rows[|rows| - 1];
      ColumnSum(init, w);
      var c, key := Column(init, w), Pair(r.account, w);
      SumPut(c, key, StakeOf(rows, r.account));
      if key in c {
        SumRemove(c, key);
      } else {
        NoBackNoStake(init, r.account);
      }
    }
  }

  /** The exact cells of all winners in `ws`. */
  ghost function Columns(m: Merged, ws: set<Account>): (c: Allocation)
    requires ws <= m.Keys
    ensures forall p: Pair :: p in c <==> p.validator in ws && Backs(m[p.validator].voters, p.nominator)
    ensures forall p: Pair :: p in c ==> c[p] == StakeOf(m[p.validator].voters, p.nominator)
  {
    if ws == {} then map[] else
      var w :| w in ws;
      Columns(m, ws - {w}) + Column(m[w].voters, w)
  }

  ghost function AllRows(m: Merged, ws: set<Account>): nat
    requires ws <= m.Keys
  {
    if ws == {} then 0 else
      var w :| w in ws;
      AllRows(m, ws - {w}) + RowsSum(m[w].voters)
  }

  lemma {:induction false} AllRowsRemove(m: Merged, ws: set<Account>, w: Account)
    requires w in ws && ws <= m.Keys
    ensures AllRows(m, ws) == AllRows(m, ws - {w}) + RowsSum(m[w].voters)
  {
    var u :| u in ws && AllRows(m, ws) == AllRows(m, ws - {u}) + RowsSum(m[u].voters);
    if u != w {
      AllRowsRemove(m, ws - {u}, w);
      AllRowsRemove(m, ws - {w}, u);
      assert ws - {u} - {w} == ws - {w} - {u};
    }
  }

  lemma {:induction false} ColumnsSum(m: Merged, ws: set<Account>)
    requires ws <= m.Keys
    ensures SumMap(Columns(m, ws)) == AllRows(m, ws)
  {
    if ws != {} {
      var w :| w in ws && Columns(m, ws) == Columns(m, ws - {w}) + Column(m[w].voters, w);
      ColumnsSum(m, ws - {w});
      ColumnSum(m[w].voters, w);
      SumUnion(Columns(m, ws - {w}), Column(m[w].voters, w));
      AllRowsRemove(m, ws, w);
    }
  }

  /** No nominator's stake behind one validator exceeds u128. */
  ghost predicate CellsFit(m: Merged) {
    forall v: Account, w: Account :: w in m ==> StakeOf(m[w].voters, v) <= U128_MAX
  }

  lemma {:induction false} CellsFitByColumns(m: Merged, exact: Allocation)
    requires forall p: Pair :: p in exact <==> p.validator in m && Backs(m[p.validator].voters, p.nominator)
    requires forall p: Pair :: p in exact ==> exact[p] == StakeOf(m[p.validator].voters, p.nominator)
    ensures CellsFit(m) <==> forall p :: p in exact ==> exact[p] <= U128_MAX
  {
    if CellsFit(m) {
      forall p | p in exact ensures exact[p] <= U128_MAX {
        assert StakeOf(m[p.validator].voters, p.nominator) <= U128_MAX;
      }
    }
    if forall p :: p in exact ==> exact[p] <= U128_MAX {
      forall v: Account, w: Account | w in m ensures StakeOf(m[w].voters, v) <= U128_MAX {
        if Backs(m[w].voters, v) {
          assert Pair(v, w) in exact;
        } else {
          NoBackNoStake(m[w].voters, v);
        }
      }
    }
  }

  /**
   The transposed map never holds more stake than the rows it was built from, and holds all of
   it exactly when every cell fits u128.
   */
  lemma {:induction false} TransposingConserves(m: Merged, alloc: Allocation)
    requires IsTransposed(m, alloc)
    ensures SumMap(alloc) <= AllRows(m, m.Keys)
    ensures SumMap(alloc) == AllRows(m, m.Keys) <==> CellsFit(m)
  {
    var exact := Columns(m, m.Keys);
    assert exact.Keys == alloc.Keys;
    SumSaturated(exact, alloc);
    ColumnsSum(m, m.Keys);
    CellsFitByColumns(m, exact);
  }

  /** Merging loses no row: the rows of all winners together are the rows of all pages. */
  function AllPages(supports: Supports): nat {
    if supports == [] then 0 else
      AllPages(supports[..|supports| - 1]) + RowsSum(supports[|supports| - 1].value.voters)
  }

  lemma {:induction false} RowsSumAppend(a: seq<Row>, b: seq<Row>)
    ensures RowsSum(a + b) == RowsSum(a) + RowsSum(b)
  {
    if b == [] {
      assert a + b == a;
    } else {
      RowsSumAppend(a, b[..|b| - 1]);
      assert (a + b)[..|a + b| - 1] == a + b[..|b| - 1];
    }
  }

  lemma {:induction false} AllRowsSame(m: Merged, n: Merged, ws: set<Account>)
    requires ws <= m.Keys && ws <= n.Keys && forall w :: w in ws ==> m[w].voters == n[w].voters
    ensures AllRows(m, ws) == AllRows(n, ws)
  {
    if ws != {} {
      var w :| w in ws;
      AllRowsRemove(m, ws, w);
      AllRowsRemove(n, ws, w);
      AllRowsSame(m, n, ws - {w});
    }
  }

  ghost function MergeOf(supports: Supports): (m: Merged)
    ensures IsMerge(supports, m)
  {
    if supports == [] then map[] else
      var init, e := supports[..|supports| - 1], supports[|supports| - 1];
      assert supports == init + [e];
      AbsorbStep(init, MergeOf(init), e);
      Absorb(MergeOf(init), e)
  }

  lemma {:induction false} MergingConserves(supports: Supports, m: Merged)
    requires IsMerge(supports, m)
    ensures AllRows(m, m.Keys) == AllPages(supports)
    decreases |supports|
  {
    assert m == MergeOf(supports);
    if supports == [] {
      assert m.Keys == {};
    } else {
      var init, e := supports[..|supports| - 1], supports[|supports| - 1];
      var was := MergeOf(init);
      assert m == Absorb(was, e);
      MergingConserves(init, was);
      MergeStepSum(was, e);
    }
  }

  lemma {:induction false} MergeStepSum(was: Merged, e: Entry<Support>)
    ensures AllRows(Absorb(was, e), Absorb(was, e).Keys) == AllRows(was, was.Keys) + RowsSum(e.value.voters)
  {
    var m := Absorb(was, e);
    var w, rest := e.account, m.Keys - {e.account};
    AllRowsRemove(m, m.Keys, w);
    AllRowsSame(m, was, rest);
    if w in was {
      assert was.Keys - {w} == rest;
      AllRowsRemove(was, was.Keys, w);
      RowsSumAppend(was[w].voters, e.value.voters);
    } else {
      assert was.Keys == rest;
      assert [] + e.value.voters == e.value.voters;
    }
  }

  /** The failing side: two rows of the largest stake behind one validator saturate into one cell. */
  lemma {:induction false} SaturationLosesStake() returns (m: Merged, alloc: Allocation)
    ensures m == map[9 := Support(0, [Entry(4, U128_MAX), Entry(4, U128_MAX)])] && alloc == map[Pair(4, 9) := U128_MAX]
    ensures IsTransposed(m, alloc) && SumMap(alloc) < AllRows(m, m.Keys)
  {
    var rows: seq<Row> := [Entry(4, U128_MAX), Entry(4, U128_MAX)];
    m, alloc := map[9 := Support(0, rows)], map[Pair(4, 9) := U128_MAX];
    var init: seq<Row> := rows[..1];
    assert init == [Entry(4, U128_MAX)] && init[..0] == [];
    assert StakeOf(init, 4) == U128_MAX;
    assert StakeOf(m[9].voters, 4) == U128_MAX + U128_MAX;
    assert rows[0].account == 4 && forall v :: Backs(rows, v) ==> v == 4;
    TransposingConserves(m, alloc);
  }
}
