/** The validator view and the nominator view, and the laws that tie them together. */
module PredictionViews {
  import opened Common
  import opened Predictions

  // ---- stable descending sort ----

  /** Insert behind every entry whose key is at least as large. */
  function Insert<T>(sorted: seq<Entry<T>>, e: Entry<T>, key: T -> nat): seq<Entry<T>> {
    if sorted == [] || key(e.value) > key(sorted[0].value) then [e] + sorted
    else [sorted[0]] + Insert(sorted[1..], e, key)
  }

  function SortDescending<T>(list: seq<Entry<T>>, key: T -> nat): seq<Entry<T>> {
    if list == [] then [] else Insert(SortDescending(list[..|list| - 1], key), list[|list| - 1], key)
  }

  ghost predicate Descends<T>(list: seq<Entry<T>>, key: T -> nat) {
    forall i, j :: 0 <= i < j < |list| ==> key(list[i].value) >= key(list[j].value)
  }

  lemma {:induction false} InsertMultiset<T>(sorted: seq<Entry<T>>, e: Entry<T>, key: T -> nat)
    ensures multiset(Insert(sorted, e, key)) == multiset(sorted) + multiset{e}
  {
    if sorted != [] && key(e.value) <= key(sorted[0].value) {
      InsertMultiset(sorted[1..], e, key);
      assert sorted == [sorted[0]] + sorted[1..];
    }
  }

  lemma {:induction false} InsertMembers<T>(sorted: seq<Entry<T>>, e: Entry<T>, key: T -> nat, x: Entry<T>)
    ensures x in Insert(sorted, e, key) <==> x in sorted || x == e
  {
    InsertMultiset(sorted, e, key);
    assert x in Insert(sorted, e, key) <==> x in multiset(Insert(sorted, e, key));
  }

  lemma {:induction false} InsertDescends<T>(sorted: seq<Entry<T>>, e: Entry<T>, key: T -> nat)
    requires Descends(sorted, key)
    ensures Descends(Insert(sorted, e, key), key)
  {
    if sorted != [] && key(e.value) <= key(sorted[0].value) {
      var rest := Insert(sorted[1..], e, key);
      InsertDescends(sorted[1..], e, key);
      forall i | 0 <= i < |rest| ensures key(sorted[0].value) >= key(rest[i].value) {
        InsertMembers(sorted[1..], e, key, rest[i]);
      }
    }
  }

  lemma {:induction false} SortKeeps<T>(list: seq<Entry<T>>, key: T -> nat)
    ensures multiset(SortDescending(list, key)) == multiset(list)
    ensures Descends(SortDescending(list, key), key)
  {
    if list != [] {
      var init, last := list[..|list| - 1], list[|list| - 1];
      SortKeeps(init, key);
      InsertMultiset(SortDescending(init, key), last, key);
      InsertDescends(SortDescending(init, key), last, key);
      assert list == init + [last];
    }
  }

  // ---- winners ----

  function Total(s: Support): nat {
    s.total
  }

  /** Larger total first; equal totals in account order, as the ordered map yields them. */
  predicate Before(a: Entry<Support>, b: Entry<Support>) {
    a.value.total > b.value.total || (a.value.total == b.value.total && a.account < b.account)
  }

  ghost predicate Ordered(list: seq<Entry<Support>>) {
    forall i, j :: 0 <= i < j < |list| ==> Before(list[i], list[j])
  }

  /** `list` holds the entries of `m`, each once, in ranking order. */
  ghost predicate IsRanked(m: Merged, list: seq<Entry<Support>>) {
    Ordered(list) && forall e :: e in list <==> e.account in m && m[e.account] == e.value
  }

  lemma {:induction false} InsertOrdered(list: seq<Entry<Support>>, e: Entry<Support>)
    requires Ordered(list) && forall x :: x in list ==> x.account < e.account
    ensures Ordered(Insert(list, e, Total))
  {
    if list != [] && Total(e.value) <= Total(list[0].value) {
      var rest := Insert(list[1..], e, Total);
      InsertOrdered(list[1..], e);
      forall i | 0 <= i < |rest| ensures Before(list[0], rest[i]) {
        InsertMembers(list[1..], e, Total, rest[i]);
        assert list[0] in list;
      }
    }
  }

  method Least(keys: set<Account>) returns (k: Account)
    requires keys != {}
    ensures k in keys && forall j :: j in keys ==> k <= j
  {
    k :| k in keys;
    var others := keys - {k};
    while others != {}
      invariant k in keys && others <= keys
      invariant forall j :: j in keys && j !in others ==> k <= j
      decreases others
    {
      var j :| j in others;
      if j < k {
        k := j;
      }
      others := others - {j};
    }
  }

  method RankWinners(m: Merged) returns (ranked: seq<Entry<Support>>)
    ensures IsRanked(m, ranked)
  {
    ranked := [];
    var rest := m.Keys;
    while rest != {}
      invariant rest <= m.Keys
      invariant Ordered(ranked)
      invariant forall e :: e in ranked <==> e.account in m && e.account !in rest && m[e.account] == e.value
      invariant forall e, k :: e in ranked && k in rest ==> e.account < k
      decreases rest
    {
      var w := Least(rest);
      var e := Entry(w, m[w]);
      InsertOrdered(ranked, e);
      forall x ensures x in Insert(ranked, e, Total) <==> x in ranked || x == e {
        InsertMembers(ranked, e, Total, x);
      }
      ranked, rest := Insert(ranked, e, Total), rest - {w};
    }
  }

  function ActiveSet(winners: seq<Entry<Support>>): set<Account> {
    set e | e in winners :: e.account
  }

  /** Exactly the strongest winners are shown: none left out is backed by more than one shown. */
  lemma {:induction false} ShownAreStrongest(m: Merged, ranked: seq<Entry<Support>>, desired: nat, w: Account, x: Account)
    requires IsRanked(m, ranked)
    requires w in ActiveSet(Take(ranked, desired)) && x in m && x !in ActiveSet(Take(ranked, desired))
    ensures w in m && m[w].total >= m[x].total
    ensures |Take(ranked, desired)| == desired
  {
    var shown := Take(ranked, desired);
    var e :| e in shown && e.account == w;
    var i :| 0 <= i < |shown| && shown[i] == e;
    assert Entry(x, m[x]) in ranked;
    var j :| 0 <= j < |ranked| && ranked[j] == Entry(x, m[x]);
    NotShown(shown, ranked, j);
    assert Before(ranked[i], ranked[j]);
  }

  lemma {:induction false} NotShown(shown: seq<Entry<Support>>, ranked: seq<Entry<Support>>, j: nat)
    requires shown <= ranked && j < |ranked|
    ensures j < |shown| ==> ranked[j].account in ActiveSet(shown)
  {
    if j < |shown| {
      assert shown[j] in shown;
    }
  }

  // ---- the validator view ----

  datatype ValidatorInfo = ValidatorInfo(account: Account, total: nat, selfStake: nat, nominators: seq<Row>)

  /** The stake of the first row of `who`, or nothing. */
  function FirstStake(rows: seq<Row>, who: Account): nat {
    if rows == [] then 0 else if rows[0].account == who then rows[0].value else FirstStake(rows[1..], who)
  }

  function Others(rows: seq<Row>, who: Account): seq<Row> {
    if rows == [] then [] else
      Others(rows[..|rows| - 1], who) + if rows[|rows| - 1].account == who then [] else [rows[|rows| - 1]]
  }

  function Amount(n: nat): nat {
    n
  }

  function ValidatorView(e: Entry<Support>): ValidatorInfo {
    ValidatorInfo(e.account, e.value.total, FirstStake(e.value.voters, e.account),
                  SortDescending(Others(e.value.voters, e.account), Amount))
  }

  // ---- the nominator view ----

  datatype Classes = Classes(active: seq<Row>, inactive: seq<Account>, waiting: seq<Account>)

  datatype NominatorInfo = NominatorInfo(account: Account, stake: nat, classes: Classes)

  function Allocated(alloc: Allocation, nominator: Account, target: Account): nat {
    if Pair(nominator, target) in alloc then alloc[Pair(nominator, target)] else 0
  }

  function Classify(alloc: Allocation, active: set<Account>, nominator: Account, targets: seq<Account>): Classes {
    if targets == [] then Classes([], [], []) else
      Place(alloc, active, nominator, Classify(alloc, active, nominator, targets[..|targets| - 1]), targets[|targets| - 1])
  }

  /** File one more target. */
  function Place(alloc: Allocation, active: set<Account>, nominator: Account, c: Classes, t: Account): Classes {
    var x := Allocated(alloc, nominator, t);
    if t in active && x > 0 then c.(active := c.active + [Entry(t, x)])
    else if t in active then c.(inactive := c.inactive + [t])
    else c.(waiting := c.waiting + [t])
  }

  /** Accounts left out of the nominator view: listed validators and pure self-voters. */
  function Skipped(active: set<Account>, voters: seq<Voter>): set<Account> {
    set v | v in voters && (v.account in active || v.value.targets == [v.account]) :: v.account
  }

  function NominatorView(alloc: Allocation, active: set<Account>, v: Voter): NominatorInfo {
    NominatorInfo(v.account, v.value.stake, Classify(alloc, active, v.account, v.value.targets))
  }

  function NominatorViews(alloc: Allocation, active: set<Account>, skipped: set<Account>, voters: seq<Voter>): seq<NominatorInfo> {
    if voters == [] then [] else
      var v := voters[|voters| - 1];
      NominatorViews(alloc, active, skipped, voters[..|voters| - 1])
      + if v.account in skipped then [] else [NominatorView(alloc, active, v)]
  }

  // ---- building both views ----

  method ClassifyTargets(alloc: Allocation, active: set<Account>, nominator: Account, targets: seq<Account>)
    returns (c: Classes)
    ensures c == Classify(alloc, active, nominator, targets)
  {
    c := Classes([], [], []);
    for i := 0 to |targets|
      invariant c == Classify(alloc, active, nominator, targets[..i])
    {
      assert targets[..i + 1][..i] == targets[..i];
      var isWinner, stake := targets[i] in active, Allocated(alloc, nominator, targets[i]);
      if isWinner && stake > 0 {
        c := c.(active := c.active + [Entry(targets[i], stake)]);
      } else if isWinner {
        c := c.(inactive := c.inactive + [targets[i]]);
      } else {
        c := c.(waiting := c.waiting + [targets[i]]);
      }
    }
    assert targets[..|targets|] == targets;
  }

  /** What the validator view says of one winner, read off the supports. */
  ghost predicate Shows(supports: Supports, info: ValidatorInfo) {
    var w := info.account;
    var rows := RowsOf(supports, w);
    && Wins(supports, w)
    && info.total == Saturated(TotalOf(supports, w))
    && (!Backs(rows, w) ==> info.selfStake == 0)
    && (forall i :: 0 <= i < |rows| && rows[i].account == w && !Backs(rows[..i], w) ==> info.selfStake == rows[i].value)
    && Descends(info.nominators, Amount)
    && forall x: nat :: SameRows(info.nominators, rows, w, x)
  }

  ghost function Worth(x: nat): Row -> bool {
    (r: Row) => r.value == x
  }

  ghost function WorthFrom(x: nat, w: Account): Row -> bool {
    (r: Row) => r.value == x && r.account != w
  }

  /** The backers other than `w` that put in exactly `x`, each in the order of its rows. */
  ghost predicate SameRows(shown: seq<Row>, rows: seq<Row>, w: Account, x: nat) {
    Those(shown, Worth(x)) == Those(rows, WorthFrom(x, w))
  }

  /** The targets in nomination order: shown and funded, shown but not funded, not shown. */
  ghost predicate Sorts(supports: Supports, shown: set<Account>, who: Account, targets: seq<Account>, c: Classes) {
    && Accounts(c.active) == Those(targets, t => t in shown && StakeOf(RowsOf(supports, t), who) > 0)
    && (forall r :: r in c.active ==> r.value == Saturated(StakeOf(RowsOf(supports, r.account), who)))
    && c.inactive == Those(targets, t => t in shown && StakeOf(RowsOf(supports, t), who) == 0)
    && c.waiting == Those(targets, t => t !in shown)
  }

  /** Votes, is no shown validator, and never votes for itself alone. */
  ghost predicate Listed(validators: seq<ValidatorInfo>, voters: seq<Voter>, who: Account) {
    && (exists j :: 0 <= j < |voters| && voters[j].account == who)
    && (forall i :: 0 <= i < |validators| ==> validators[i].account != who)
    && (forall j :: 0 <= j < |voters| && voters[j].account == who ==> voters[j].value.targets != [who])
  }

  /** One row of the nominator view, against the snapshot entry it comes from. */
  ghost predicate Describes(supports: Supports, shown: set<Account>, v: Voter, info: NominatorInfo) {
    && info.account == v.account && info.stake == v.value.stake
    && Sorts(supports, shown, v.account, v.value.targets, info.classes)
  }

  ghost predicate Appears(nominators: seq<NominatorInfo>, who: Account) {
    exists k :: 0 <= k < |nominators| && nominators[k].account == who
  }

  predicate Increasing(at: seq<nat>) {
    forall i, j :: 0 <= i < j < |at| ==> at[i] < at[j]
  }

  function ShownSet(validators: seq<ValidatorInfo>): set<Account> {
    set i | 0 <= i < |validators| :: validators[i].account
  }

  /**
   The winners by rank, cut to the desired number, and the snapshot's voters. `at` tells the
   snapshot entry of each row of the nominator view.
   */
  method BuildPredictions(pages: seq<Supports>, snapshot: seq<seq<Voter>>, desired: nat)
    returns (validators: seq<ValidatorInfo>, nominators: seq<NominatorInfo>,
             m: Merged, alloc: Allocation, ranked: seq<Entry<Support>>, ghost at: seq<nat>)
    ensures IsMerge(Flatten(pages), m) && IsTransposed(m, alloc) && IsRanked(m, ranked)
    ensures |validators| == Min(|ranked|, desired)
    ensures forall i :: 0 <= i < |validators| ==>
      validators[i].account == ranked[i].account && Shows(Flatten(pages), validators[i])
    ensures forall who :: Appears(nominators, who) <==> Listed(validators, Flatten(snapshot), who)
    ensures Increasing(at) && |at| == |nominators|
    ensures var voters := Flatten(snapshot);
            && (forall j: nat :: j in at <==> j < |voters| && Listed(validators, voters, voters[j].account))
            && forall k :: 0 <= k < |at| ==>
                 at[k] < |voters| && Describes(Flatten(pages), ShownSet(validators), voters[at[k]], nominators[k])
  {
    m := MergeSupports(pages);
    alloc := Transpose(m);
    ranked := RankWinners(m);
    var winners := Take(ranked, desired);
    var active := ActiveSet(winners);
    var voters := Flatten(snapshot);
    validators := BuildValidators(winners);
    nominators := BuildNominators(alloc, active, Skipped(active, voters), voters);
    ValidatorsShow(Flatten(pages), m, ranked, desired, validators);
    SameActive(winners, validators);
    at := NominatorsAt(alloc, active, Skipped(active, voters), voters);
    NominatorsExact(Flatten(pages), m, alloc, validators, voters, nominators, at);
    ListedAppear(validators, voters, nominators, at);
  }

  lemma {:induction false} ListedAppear(
    validators: seq<ValidatorInfo>, voters: seq<Voter>, nominators: seq<NominatorInfo>, at: seq<nat>)
    requires |at| == |nominators|
    requires forall j: nat :: j in at <==> j < |voters| && Listed(validators, voters, voters[j].account)
    requires forall k :: 0 <= k < |at| ==> at[k] < |voters| && nominators[k].account == voters[at[k]].account
    ensures forall who :: Appears(nominators, who) <==> Listed(validators, voters, who)
  {
    forall who ensures Appears(nominators, who) <==> Listed(validators, voters, who) {
      if Appears(nominators, who) {
        var k :| 0 <= k < |nominators| && nominators[k].account == who;
        assert at[k] in at;
      }
      if Listed(validators, voters, who) {
        var j: nat :| j < |voters| && voters[j].account == who;
        assert j in at;
        var k :| 0 <= k < |at| && at[k] == j;
        assert nominators[k].account == who;
      }
    }
  }

  lemma {:induction false} ValidatorsShow(
    supports: Supports, m: Merged, ranked: seq<Entry<Support>>, desired: nat, validators: seq<ValidatorInfo>)
    requires IsMerge(supports, m) && IsRanked(m, ranked)
    requires |validators| == |Take(ranked, desired)|
    requires forall i :: 0 <= i < |validators| ==> validators[i] == ValidatorView(Take(ranked, desired)[i])
    ensures forall i :: 0 <= i < |validators| ==>
      validators[i].account == ranked[i].account && Shows(supports, validators[i])
    ensures ShownSet(validators) <= m.Keys
  {
    forall i | 0 <= i < |validators|
      ensures validators[i].account == ranked[i].account && Shows(supports, validators[i])
      ensures validators[i].account in m
    {
      assert Take(ranked, desired)[i] == ranked[i] && ranked[i] in ranked;
      ViewShows(supports, m, ranked[i]);
    }
  }

  lemma {:induction false} ViewShows(supports: Supports, m: Merged, e: Entry<Support>)
    requires IsMerge(supports, m) && e.account in m && m[e.account] == e.value
    ensures Shows(supports, ValidatorView(e))
  {
    var rows, w := e.value.voters, e.account;
    FirstStakeIsFirst(rows, w);
    SortKeeps(Others(rows, w), Amount);
    forall x: nat ensures SameRows(ValidatorView(e).nominators, rows, w, x) {
      SortIsStable(Others(rows, w), x);
      OthersAre(rows, w, x);
    }
  }

  lemma {:induction false} BacksTail(rows: seq<Row>, i: nat, w: Account)
    requires 0 < i <= |rows|
    ensures Backs(rows[1..][..i - 1], w) ==> Backs(rows[..i], w)
  {
    var tail: seq<Row> := rows[1..][..i - 1];
    if k :| 0 <= k < |tail| && tail[k].account == w {
      assert rows[..i][k + 1].account == w;
    }
  }

  lemma {:induction false} FirstStakeIsFirst(rows: seq<Row>, w: Account)
    ensures !Backs(rows, w) ==> FirstStake(rows, w) == 0
    ensures forall i :: 0 <= i < |rows| && rows[i].account == w && !Backs(rows[..i], w) ==> FirstStake(rows, w) == rows[i].value
  {
    if rows != [] {
      var tail: seq<Row> := rows[1..];
      FirstStakeIsFirst(tail, w);
      if rows[0].account != w {
        BacksTail(rows, |rows|, w);
        assert rows[..|rows|] == rows && tail[..|tail|] == tail;
        forall i | 0 <= i < |rows| && rows[i].account == w && !Backs(rows[..i], w) ensures FirstStake(rows, w) == rows[i].value {
          BacksTail(rows, i, w);
          assert tail[i - 1] == rows[i];
        }
      } else {
        assert forall i :: 0 < i < |rows| ==> rows[..i][0] == rows[0];
        assert rows[0].account == w;
      }
    }
  }

  lemma {:induction false} OthersAre(rows: seq<Row>, w: Account, x: nat)
    ensures Those(Others(rows, w), Worth(x)) == Those(rows, WorthFrom(x, w))
  {
    if rows != [] {
      var init, e := rows[..|rows| - 1], rows[|rows| - 1];
      OthersAre(init, w, x);
      if e.account != w {
        assert (Others(init, w) + [e])[..|Others(init, w)|] == Others(init, w);
      } else {
        assert Others(rows, w) == Others(init, w);
      }
    }
  }

  lemma {:induction false} ThoseNone(rows: seq<Row>, x: nat)
    requires forall i :: 0 <= i < |rows| ==> rows[i].value != x
    ensures Those(rows, Worth(x)) == []
  {
    if rows != [] {
      ThoseNone(rows[..|rows| - 1], x);
    }
  }

  lemma {:induction false} ThoseOne(e: Row, x: nat)
    ensures Those([e], Worth(x)) == if e.value == x then [e] else []
  {
    var one: seq<Row> := [e];
    assert one[..0] == [];
  }

  lemma {:induction false} InsertFirst(sorted: seq<Row>, e: Row, x: nat)
    requires forall i :: 0 <= i < |sorted| ==> sorted[i].value < e.value
    ensures Those([e] + sorted, Worth(x)) == Those(sorted, Worth(x)) + if e.value == x then [e] else []
  {
    ThoseOne(e, x);
    ThoseAppend([e], sorted, Worth(x));
    if e.value == x {
      ThoseNone(sorted, x);
    }
  }

  lemma {:induction false} InsertIsStable(sorted: seq<Row>, e: Row, x: nat)
    requires Descends(sorted, Amount)
    ensures Those(Insert(sorted, e, Amount), Worth(x)) == Those(sorted, Worth(x)) + if e.value == x then [e] else []
  {
    if sorted == [] || Amount(e.value) > Amount(sorted[0].value) {
      InsertFirst(sorted, e, x);
    } else {
      var head: seq<Row>, tail := [sorted[0]], sorted[1..];
      InsertIsStable(tail, e, x);
      assert sorted == head + tail;
      ThoseAppend(head, tail, Worth(x));
      ThoseAppend(head, Insert(tail, e, Amount), Worth(x));
      Associative(Those(head, Worth(x)), Those(tail, Worth(x)), if e.value == x then [e] else []);
    }
  }

  /** Rows of equal stake keep their order. */
  lemma {:induction false} SortIsStable(rows: seq<Row>, x: nat)
    ensures Those(SortDescending(rows, Amount), Worth(x)) == Those(rows, Worth(x))
  {
    if rows != [] {
      var init, e := rows[..|rows| - 1], rows[|rows| - 1];
      SortIsStable(init, x);
      SortKeeps(init, Amount);
      InsertIsStable(SortDescending(init, Amount), e, x);
    }
  }

  lemma {:induction false} SameActive(winners: seq<Entry<Support>>, validators: seq<ValidatorInfo>)
    requires |validators| == |winners|
    requires forall i :: 0 <= i < |validators| ==> validators[i] == ValidatorView(winners[i])
    ensures ActiveSet(winners) == ShownSet(validators)
  {
    forall w | w in ActiveSet(winners) ensures w in ShownSet(validators) {
      var i :| 0 <= i < |winners| && winners[i].account == w;
      assert validators[i].account == w;
    }
    forall w | w in ShownSet(validators) ensures w in ActiveSet(winners) {
      var i :| 0 <= i < |validators| && validators[i].account == w;
      assert winners[i] in winners;
    }
  }

  /** `at` tells the snapshot entry each row was made from. */
  ghost predicate Located(
    alloc: Allocation, active: set<Account>, skipped: set<Account>, voters: seq<Voter>, views: seq<NominatorInfo>, at: seq<nat>)
  {
    && Increasing(at) && |at| == |views|
    && (forall j: nat :: j in at <==> j < |voters| && voters[j].account !in skipped)
    && forall k :: 0 <= k < |at| ==> at[k] < |voters| && views[k] == NominatorView(alloc, active, voters[at[k]])
  }

  lemma {:induction false} LocatedSkip(
    alloc: Allocation, active: set<Account>, skipped: set<Account>, voters: seq<Voter>, v: Voter,
    views: seq<NominatorInfo>, at: seq<nat>)
    requires Located(alloc, active, skipped, voters, views, at) && v.account in skipped
    ensures Located(alloc, active, skipped, voters + [v], views, at)
  {
  }

  lemma {:induction false} LocatedAdd(
    alloc: Allocation, active: set<Account>, skipped: set<Account>, voters: seq<Voter>, v: Voter,
    views: seq<NominatorInfo>, at: seq<nat>)
    requires Located(alloc, active, skipped, voters, views, at) && v.account !in skipped
    ensures Located(alloc, active, skipped, voters + [v], views + [NominatorView(alloc, active, v)], at + [|voters|])
  {
    var more := at + [|voters|];
    forall j: nat ensures j in more <==> j < |voters + [v]| && (voters + [v])[j].account !in skipped {
      assert j in more <==> j in at || j == |voters|;
    }
  }

  /** The snapshot entries the nominator view is made from. */
  lemma {:induction false} NominatorsAt(alloc: Allocation, active: set<Account>, skipped: set<Account>, voters: seq<Voter>)
    returns (at: seq<nat>)
    ensures Located(alloc, active, skipped, voters, NominatorViews(alloc, active, skipped, voters), at)
  {
    if voters == [] {
      at := [];
    } else {
      var init, v := voters[..|voters| - 1], voters[|voters| - 1];
      assert voters == init + [v];
      var views := NominatorViews(alloc, active, skipped, init);
      at := NominatorsAt(alloc, active, skipped, init);
      if v.account in skipped {
        LocatedSkip(alloc, active, skipped, init, v, views, at);
      } else {
        LocatedAdd(alloc, active, skipped, init, v, views, at);
        at := at + [|init|];
      }
    }
  }

  lemma {:induction false} SkippedAreNotListed(validators: seq<ValidatorInfo>, voters: seq<Voter>, j: nat)
    requires j < |voters|
    ensures voters[j].account !in Skipped(ShownSet(validators), voters) <==> Listed(validators, voters, voters[j].account)
  {
    var who, shown := voters[j].account, ShownSet(validators);
    if who in Skipped(shown, voters) {
      var v :| v in voters && v.account == who && (v.account in shown || v.value.targets == [v.account]);
      assert who in shown ==> exists i :: 0 <= i < |validators| && validators[i].account == who;
    } else {
      forall i | 0 <= i < |voters| && voters[i].account == who ensures voters[i].value.targets != [who] && who !in shown {
        assert voters[i] in voters;
      }
      assert forall i :: 0 <= i < |validators| ==> validators[i].account in shown;
    }
  }

  lemma {:induction false} NominatorsExact(
    supports: Supports, m: Merged, alloc: Allocation, validators: seq<ValidatorInfo>, voters: seq<Voter>,
    nominators: seq<NominatorInfo>, at: seq<nat>)
    requires IsMerge(supports, m) && IsTransposed(m, alloc) && ShownSet(validators) <= m.Keys
    requires Located(alloc, ShownSet(validators), Skipped(ShownSet(validators), voters), voters, nominators, at)
    ensures forall j: nat :: j in at <==> j < |voters| && Listed(validators, voters, voters[j].account)
    ensures forall k :: 0 <= k < |at| ==> Describes(supports, ShownSet(validators), voters[at[k]], nominators[k])
  {
    forall j: nat | j < |voters|
      ensures voters[j].account !in Skipped(ShownSet(validators), voters) <==> Listed(validators, voters, voters[j].account)
    {
      SkippedAreNotListed(validators, voters, j);
    }
    forall k | 0 <= k < |at| ensures Describes(supports, ShownSet(validators), voters[at[k]], nominators[k]) {
      var v := voters[at[k]];
      ClassesSorted(supports, m, alloc, ShownSet(validators), v.account, v.value.targets);
    }
  }

  lemma {:induction false} ClassesSorted(
    supports: Supports, m: Merged, alloc: Allocation, shown: set<Account>, who: Account, targets: seq<Account>)
    requires IsMerge(supports, m) && IsTransposed(m, alloc) && shown <= m.Keys
    ensures Sorts(supports, shown, who, targets, Classify(alloc, shown, who, targets))
  {
    if targets != [] {
      var init, t := targets[..|targets| - 1], targets[|targets| - 1];
      ClassesSorted(supports, m, alloc, shown, who, init);
      var c := Classify(alloc, shown, who, init);
      if t in shown {
        AllocatedIsSum(m, alloc, who, t);
        AccountsSnoc(c.active, t, Allocated(alloc, who, t));
      }
      assert Classify(alloc, shown, who, targets) == Place(alloc, shown, who, c, t);
    }
  }

  method BuildValidators(winners: seq<Entry<Support>>) returns (validators: seq<ValidatorInfo>)
    ensures |validators| == |winners|
    ensures forall i :: 0 <= i < |validators| ==> validators[i] == ValidatorView(winners[i])
  {
    validators := [];
    for i := 0 to |winners|
      invariant |validators| == i
      invariant forall k :: 0 <= k < i ==> validators[k] == ValidatorView(winners[k])
    {
      validators := validators + [ValidatorView(winners[i])];
    }
  }

  method BuildNominators(alloc: Allocation, active: set<Account>, skipped: set<Account>, voters: seq<Voter>)
    returns (nominators: seq<NominatorInfo>)
    ensures nominators == NominatorViews(alloc, active, skipped, voters)
  {
    nominators := [];
    for i := 0 to |voters|
      invariant nominators == NominatorViews(alloc, active, skipped, voters[..i])
    {
      assert voters[..i + 1][..i] == voters[..i];
      var v := voters[i];
      if v.account in skipped {
        continue;
      }
      var c := ClassifyTargets(alloc, active, v.account, v.value.targets);
      nominators := nominators + [NominatorInfo(v.account, v.value.stake, c)];
    }
    assert voters[..|voters|] == voters;
  }

  // ---- laws ----

  function Accounts(rows: seq<Row>): seq<Account> {
    seq(|rows|, i requires 0 <= i < |rows| => rows[i].account)
  }

  /** Classes are decided by whether a target is shown and funded. */
  lemma {:induction false} ClassesMean(alloc: Allocation, active: set<Account>, nominator: Account, targets: seq<Account>)
    ensures var c := Classify(alloc, active, nominator, targets);
            && (forall r :: r in c.active ==>
                  r.account in active && r.value == Allocated(alloc, nominator, r.account) > 0)
            && (forall t :: t in c.inactive ==> t in active && Allocated(alloc, nominator, t) == 0)
            && (forall t :: t in c.waiting ==> t !in active)
  {
    if targets != [] {
      ClassesMean(alloc, active, nominator, targets[..|targets| - 1]);
    }
  }

  function Together(c: Classes): multiset<Account> {
    multiset(Accounts(c.active)) + multiset(c.inactive) + multiset(c.waiting)
  }

  lemma {:induction false} MultisetSnoc(s: seq<Account>, t: Account)
    ensures multiset(s + [t]) == multiset(s) + multiset{t}
  {
  }

  lemma {:induction false} TogetherStep(alloc: Allocation, active: set<Account>, nominator: Account, c: Classes, t: Account)
    ensures Together(Place(alloc, active, nominator, c, t)) == Together(c) + multiset{t}
  {
    AccountsSnoc(c.active, t, Allocated(alloc, nominator, t));
    MultisetSnoc(Accounts(c.active), t);
    MultisetSnoc(c.inactive, t);
    MultisetSnoc(c.waiting, t);
  }

  /** Every target lands in exactly one class, as often as it was nominated. */
  lemma {:induction false} TargetsPartition(alloc: Allocation, active: set<Account>, nominator: Account, targets: seq<Account>)
    ensures Together(Classify(alloc, active, nominator, targets)) == multiset(targets)
  {
    if targets != [] {
      var init, t := targets[..|targets| - 1], targets[|targets| - 1];
      var before := Classify(alloc, active, nominator, init);
      TargetsPartition(alloc, active, nominator, init);
      TogetherStep(alloc, active, nominator, before, t);
      assert Classify(alloc, active, nominator, targets) == Place(alloc, active, nominator, before, t);
      assert targets == init + [t];
      MultisetSnoc(init, t);
    }
  }

  lemma {:induction false} AccountsSnoc(rows: seq<Row>, t: Account, x: nat)
    ensures Accounts(rows + [Entry(t, x)]) == Accounts(rows) + [t]
  {
  }

  lemma {:induction false} StakeOfAppend(a: seq<Row>, b: seq<Row>, who: Account)
    ensures StakeOf(a + b, who) == StakeOf(a, who) + StakeOf(b, who)
  {
    if b == [] {
      assert a + b == a;
    } else {
      StakeOfAppend(a, b[..|b| - 1], who);
      assert (a + b)[..|a + b| - 1] == a + b[..|b| - 1];
    }
  }

  lemma {:induction false} StakeOfOne(e: Row, who: Account)
    ensures StakeOf([e], who) == (if e.account == who then e.value else 0) && RowsSum([e]) == e.value
  {
    var one: seq<Row> := [e];
    assert one[..0] == [];
  }

  lemma {:induction false} StakeOfInsert(sorted: seq<Row>, e: Row, who: Account)
    ensures StakeOf(Insert(sorted, e, Amount), who) == StakeOf(sorted, who) + StakeOf([e], who)
    ensures RowsSum(Insert(sorted, e, Amount)) == RowsSum(sorted) + e.value
  {
    StakeOfOne(e, who);
    if sorted == [] || Amount(e.value) > Amount(sorted[0].value) {
      StakeOfAppend([e], sorted, who);
      RowsSumAppend([e], sorted);
    } else {
      var head, tail := [sorted[0]], sorted[1..];
      StakeOfInsert(tail, e, who);
      assert sorted == head + tail;
      StakeOfAppend(head, Insert(tail, e, Amount), who);
      StakeOfAppend(head, tail, who);
      RowsSumAppend(head, Insert(tail, e, Amount));
      RowsSumAppend(head, tail);
    }
  }

  lemma {:induction false} StakeOfSorted(rows: seq<Row>, who: Account)
    ensures StakeOf(SortDescending(rows, Amount), who) == StakeOf(rows, who)
    ensures RowsSum(SortDescending(rows, Amount)) == RowsSum(rows)
  {
    if rows != [] {
      var init, e := rows[..|rows| - 1], rows[|rows| - 1];
      StakeOfSorted(init, who);
      StakeOfInsert(SortDescending(init, Amount), e, who);
      StakeOfOne(e, who);
    }
  }

  lemma {:induction false} StakeOfOthers(rows: seq<Row>, w: Account, who: Account)
    ensures StakeOf(Others(rows, w), who) == if who == w then 0 else StakeOf(rows, who)
    ensures RowsSum(rows) == StakeOf(rows, w) + RowsSum(Others(rows, w))
  {
    if rows != [] {
      var init, e := rows[..|rows| - 1], rows[|rows| - 1];
      StakeOfOthers(init, w, who);
      if e.account != w {
        assert (Others(init, w) + [e])[..|Others(init, w)|] == Others(init, w);
      } else {
        assert Others(rows, w) == Others(init, w);
      }
    }
  }

  lemma {:induction false} AllocatedIsSum(m: Merged, alloc: Allocation, nominator: Account, w: Account)
    requires IsTransposed(m, alloc) && w in m
    ensures Allocated(alloc, nominator, w) == Saturated(StakeOf(m[w].voters, nominator))
  {
    if Pair(nominator, w) !in alloc {
      NoBackNoStake(m[w].voters, nominator);
    }
  }

  lemma {:induction false} AccountsMember(rows: seq<Row>, a: Account)
    ensures a in Accounts(rows) <==> exists r :: r in rows && r.account == a
  {
    if r :| r in rows && r.account == a {
      var i :| 0 <= i < |rows| && rows[i] == r;
      assert Accounts(rows)[i] == a;
    }
    if a in Accounts(rows) {
      var i :| 0 <= i < |rows| && Accounts(rows)[i] == a;
      assert rows[i] in rows;
    }
  }

  /**
   The two views agree on every shown validator `w` and every nominator shown: the nominator's
   rows under `w` in the validator view add up to what its own row for `w` shows (saturated to
   u128), and `w` appears as active, as often as it was nominated, exactly when that sum is
   positive; otherwise it appears as inactive.
   */
  lemma {:induction false} ViewsAgree(
    supports: Supports, m: Merged, alloc: Allocation, winners: seq<Entry<Support>>, e: Entry<Support>,
    nominator: Account, targets: seq<Account>)
    requires IsMerge(supports, m) && IsTransposed(m, alloc)
    requires e in winners && e.account in m && m[e.account] == e.value && nominator !in ActiveSet(winners)
    ensures var w := e.account;
            var sum := StakeOf(ValidatorView(e).nominators, nominator);
            var c := Classify(alloc, ActiveSet(winners), nominator, targets);
            && sum == StakeOf(RowsOf(supports, w), nominator)
            && (forall r :: r in c.active && r.account == w ==> r.value == Saturated(sum))
            && multiset(Accounts(c.active))[w] == (if sum > 0 then multiset(targets)[w] else 0)
            && multiset(c.inactive)[w] == (if sum > 0 then 0 else multiset(targets)[w])
            && w !in c.waiting
  {
    var w, active := e.account, ActiveSet(winners);
    assert w in active && nominator != w;
    StakeOfOthers(e.value.voters, w, nominator);
    StakeOfSorted(Others(e.value.voters, w), nominator);
    AllocatedIsSum(m, alloc, nominator, w);
    ClassesMean(alloc, active, nominator, targets);
    TargetsPartition(alloc, active, nominator, targets);
    var c := Classify(alloc, active, nominator, targets);
    AccountsMember(c.active, w);
    assert w !in multiset(c.waiting);
    assert w in multiset(c.inactive) <==> w in c.inactive;
    assert w in multiset(Accounts(c.active)) <==> w in Accounts(c.active);
  }

  /** Whoever the nominator view shows is no shown validator, never votes for itself alone, and has an entry with these data. */
  lemma {:induction false} ShownAreNotListed(alloc: Allocation, active: set<Account>, voters: seq<Voter>, info: NominatorInfo)
    requires info in NominatorViews(alloc, active, Skipped(active, voters), voters)
    ensures info.account !in active
    ensures forall v :: v in voters && v.account == info.account ==> v.value.targets != [info.account]
    ensures exists v :: v in voters && info == NominatorView(alloc, active, v)
  {
    var skipped := Skipped(active, voters);
    var at := NominatorsAt(alloc, active, skipped, voters);
    var k :| 0 <= k < |at| && NominatorViews(alloc, active, skipped, voters)[k] == info;
    assert at[k] in at && voters[at[k]] in voters;
  }

  /**
   When a winner's total is the sum of its rows, it splits into the self-stake shown and the
   nominator rows exactly when all of the winner's own stake is in its first row.
   */
  lemma {:induction false} TotalsAddUp(e: Entry<Support>)
    requires e.value.total == RowsSum(e.value.voters)
    ensures var info := ValidatorView(e);
            info.total == info.selfStake + RowsSum(info.nominators)
            <==> StakeOf(e.value.voters, e.account) == FirstStake(e.value.voters, e.account)
  {
    StakeOfOthers(e.value.voters, e.account, e.account);
    StakeOfSorted(Others(e.value.voters, e.account), e.account);
  }

  /** If each account backs the winner once, its whole own stake is in one row. */
  lemma {:induction false} OneRowEach(rows: seq<Row>, who: Account)
    requires forall i, j :: 0 <= i < j < |rows| ==> rows[i].account != rows[j].account
    ensures StakeOf(rows, who) == FirstStake(rows, who)
  {
    if rows != [] {
      assert rows == [rows[0]] + rows[1..];
      StakeOfAppend([rows[0]], rows[1..], who);
      StakeOfOne(rows[0], who);
      OneRowEach(rows[1..], who);
      if rows[0].account == who {
        assert forall i :: 0 <= i < |rows[1..]| ==> rows[1..][i] == rows[i + 1];
        assert !Backs(rows[1..], who);
        NoBackNoStake(rows[1..], who);
      }
    }
  }

  /** Conversely, every entry of an account that is no shown validator and never votes for itself alone is shown. */
  lemma {:induction false} NotSkippedAreShown(alloc: Allocation, active: set<Account>, voters: seq<Voter>, v: Voter)
    requires v in voters && v.account !in active
    requires forall u :: u in voters && u.account == v.account ==> u.value.targets != [v.account]
    ensures NominatorView(alloc, active, v) in NominatorViews(alloc, active, Skipped(active, voters), voters)
  {
    var skipped := Skipped(active, voters);
    var at := NominatorsAt(alloc, active, skipped, voters);
    var j: nat :| j < |voters| && voters[j] == v;
    assert j in at;
    var k :| 0 <= k < |at| && at[k] == j;
    assert NominatorViews(alloc, active, skipped, voters)[k] == NominatorView(alloc, active, v);
  }

  /** The failing side: a winner whose own stake comes in two rows loses the second one from its total. */
  lemma {:induction false} SelfStakeInTwoRows()
    ensures var info := ValidatorView(Entry(5, Support(3, [Entry(5, 1), Entry(5, 2)])));
            info.total == 3 && info.selfStake == 1 && RowsSum(info.nominators) == 0
  {
    var rows: seq<Row> := [Entry(5, 1), Entry(5, 2)];
    var init: seq<Row> := rows[..1];
    assert init == [Entry(5, 1)] && init[..0] == [];
    assert Others(init, 5) == [];
    assert rows[..|rows| - 1] == init && rows[|rows| - 1].account == 5;
    assert Others(rows, 5) == [];
  }
}
