/**
 Walking the on-chain bags list: bags in descending order of their upper bound, each bag a
 linked list of nodes. The two storage maps are read entry by entry and may be inconsistent,
 so the walk must cope with cyclic, shared and broken chains.
 */
module VoterList {
  import opened Common

  datatype ListNode = ListNode(id: Account, next: Option<Account>, bagUpper: nat, score: nat)

  type Nodes = map<Account, ListNode>
  type Bags = map<nat, Option<Account>>

  /** Extra voters fetched so that ineligible ones can be dropped later. */
  const BUFFER: nat := 100

  ghost predicate StrictlyDescending(s: seq<nat>) {
    forall i, j :: 0 <= i < j < |s| ==> s[i] > s[j]
  }

  /** The accumulated walk: accounts emitted and accounts seen. */
  datatype Walk = Walk(voters: seq<Account>, processed: set<Account>)

  const EMPTY := Walk([], {})

  function WalkChain(nodes: Nodes, current: Option<Account>, w: Walk, limit: nat): Walk
    decreases nodes.Keys - w.processed
  {
    if current.None? || |w.voters| >= limit || current.value in w.processed then w else
      var a := current.value;
      if a !in nodes then w.(processed := w.processed + {a}) else
        WalkChain(nodes, nodes[a].next, Walk(w.voters + [a], w.processed + {a}), limit)
  }

  function WalkBags(bags: Bags, nodes: Nodes, keys: seq<nat>, w: Walk, limit: nat): Walk
    requires forall k :: k in keys ==> k in bags
  {
    if keys == [] then w else
      WalkBags(bags, nodes, keys[1..], WalkChain(nodes, bags[keys[0]], w, limit), limit)
  }

  // ---- the imperative walk ----

  function Scored(nodes: Nodes, accounts: seq<Account>): seq<(Account, nat)>
    requires forall a :: a in accounts ==> a in nodes
  {
    seq(|accounts|, i requires 0 <= i < |accounts| => (accounts[i], nodes[accounts[i]].score))
  }

  method SortDescending(keys: set<nat>) returns (sorted: seq<nat>)
    ensures StrictlyDescending(sorted) && Elements(sorted) == keys
  {
    sorted := [];
    var rest := keys;
    while rest != {}
      invariant StrictlyDescending(sorted)
      invariant Elements(sorted) + rest == keys
      invariant forall i, k :: 0 <= i < |sorted| && k in rest ==> sorted[i] > k
      decreases rest
    {
      var largest :| largest in rest;
      var others := rest - {largest};
      while others != {}
        invariant largest in rest && others <= rest
        invariant forall k :: k in rest && k !in others ==> k <= largest
        decreases others
      {
        var k :| k in others;
        if k > largest {
          largest := k;
        }
        others := others - {k};
      }
      sorted, rest := sorted + [largest], rest - {largest};
    }
  }

  method FetchVoterList(bags: Bags, nodes: Nodes, voterLimit: nat)
    returns (voters: seq<(Account, nat)>, keys: seq<nat>)
    ensures StrictlyDescending(keys) && Elements(keys) == bags.Keys
    ensures forall k :: k in keys ==> k in bags
    ensures forall a :: a in WalkBags(bags, nodes, keys, EMPTY, voterLimit + BUFFER).voters ==> a in nodes
    ensures voters == Scored(nodes, WalkBags(bags, nodes, keys, EMPTY, voterLimit + BUFFER).voters)
    ensures forall i :: 0 <= i < |voters| ==> voters[i].0 in nodes && voters[i].1 == nodes[voters[i].0].score
  {
    var limit := voterLimit + BUFFER;
    keys := SortDescending(bags.Keys);
    assert forall k :: k in keys ==> k in Elements(keys);
    voters := [];
    var processed: set<Account> := {};
    ghost var ids: seq<Account> := [];
    ghost var result := WalkBags(bags, nodes, keys, EMPTY, limit);
    var i := 0;
    while i < |keys|
      invariant 0 <= i <= |keys|
      invariant forall a :: a in ids ==> a in nodes
      invariant voters == Scored(nodes, ids)
      invariant result == WalkBags(bags, nodes, keys[i..], Walk(ids, processed), limit)
    {
      if |voters| >= limit {
        FullBags(bags, nodes, keys[i..], Walk(ids, processed), limit);
        break;
      }
      var current := bags[keys[i]];
      ghost var chain := WalkChain(nodes, current, Walk(ids, processed), limit);
      assert keys[i..][1..] == keys[i + 1..];
      while current.Some?
        invariant forall a :: a in ids ==> a in nodes
        invariant voters == Scored(nodes, ids)
        invariant chain == WalkChain(nodes, current, Walk(ids, processed), limit)
        decreases nodes.Keys - processed
      {
        var a := current.value;
        if |voters| >= limit || a in processed {
          break;
        }
        processed := processed + {a};
        if a !in nodes {
          current := None;
          break;
        }
        voters := voters + [(a, nodes[a].score)];
        ids := ids + [a];
        current := nodes[a].next;
      }
      i := i + 1;
    }
    assert keys[|keys|..] == [];
  }

  lemma {:induction false} FullBags(bags: Bags, nodes: Nodes, keys: seq<nat>, w: Walk, limit: nat)
    requires forall k :: k in keys ==> k in bags
    requires |w.voters| >= limit
    ensures WalkBags(bags, nodes, keys, w, limit) == w
  {
    if keys != [] {
      FullBags(bags, nodes, keys[1..], w, limit);
    }
  }

  // ---- arbitrary storage: distinct, bounded, complete ----

  /** Every emitted account is a known node, seen, and emitted once. */
  ghost predicate Sane(nodes: Nodes, w: Walk, limit: nat) {
    && |w.voters| <= limit
    && Distinct(w.voters)
    && forall a :: a in w.voters ==> a in w.processed && a in nodes
  }

  lemma {:induction false} ChainStaysSane(nodes: Nodes, current: Option<Account>, w: Walk, limit: nat)
    requires Sane(nodes, w, limit)
    ensures Sane(nodes, WalkChain(nodes, current, w, limit), limit)
    decreases nodes.Keys - w.processed
  {
    if current.Some? && |w.voters| < limit && current.value !in w.processed && current.value in nodes {
      var a := current.value;
      ChainStaysSane(nodes, nodes[a].next, Walk(w.voters + [a], w.processed + {a}), limit);
    }
  }

  /** Whatever the two maps contain, the walk emits distinct known accounts and at most `limit` of them. */
  lemma {:induction false} WalkIsSane(bags: Bags, nodes: Nodes, keys: seq<nat>, w: Walk, limit: nat)
    requires forall k :: k in keys ==> k in bags
    requires Sane(nodes, w, limit)
    ensures Sane(nodes, WalkBags(bags, nodes, keys, w, limit), limit)
  {
    if keys != [] {
      ChainStaysSane(nodes, bags[keys[0]], w, limit);
      WalkIsSane(bags, nodes, keys[1..], WalkChain(nodes, bags[keys[0]], w, limit), limit);
    }
  }

  /** `k` links from `head`; a missing node ends the chain. */
  function Follow(nodes: Nodes, head: Option<Account>, k: nat): Option<Account> {
    if k == 0 then head else
      var a := Follow(nodes, head, k - 1);
      if a.Some? && a.value in nodes then nodes[a.value].next else None
  }

  /** An account on the chain of one of the bags. */
  ghost predicate Listed(bags: Bags, nodes: Nodes, keys: seq<nat>, a: Account)
    requires forall k :: k in keys ==> k in bags
  {
    exists i, k: nat :: 0 <= i < |keys| && Follow(nodes, bags[keys[i]], k) == Some(a)
  }

  /** Every link out of a seen node leads to a seen account, or to the one about to be visited. */
  ghost predicate Closed(nodes: Nodes, w: Walk, pending: Option<Account>) {
    forall a :: a in w.processed && a in nodes && nodes[a].next.Some? ==>
      nodes[a].next == pending || nodes[a].next.value in w.processed
  }

  /** Seen and known means emitted. */
  ghost predicate Emitted(nodes: Nodes, w: Walk) {
    forall a :: a in w.processed && a in nodes ==> a in w.voters
  }

  lemma {:induction false} ChainCompletes(nodes: Nodes, current: Option<Account>, w: Walk, limit: nat)
    requires Closed(nodes, w, current) && Emitted(nodes, w)
    ensures var r := WalkChain(nodes, current, w, limit);
            && Emitted(nodes, r) && w.processed <= r.processed && |w.voters| <= |r.voters|
            && (|r.voters| < limit ==> Closed(nodes, r, None) && (current.Some? ==> current.value in r.processed))
    decreases nodes.Keys - w.processed
  {
    if current.Some? && |w.voters| < limit && current.value !in w.processed && current.value in nodes {
      var a := current.value;
      var next := Walk(w.voters + [a], w.processed + {a});
      assert Emitted(nodes, next);
      assert Closed(nodes, next, nodes[a].next);
      ChainCompletes(nodes, nodes[a].next, next, limit);
    }
  }

  lemma {:induction false} BagsComplete(bags: Bags, nodes: Nodes, keys: seq<nat>, w: Walk, limit: nat)
    requires forall k :: k in keys ==> k in bags
    requires Closed(nodes, w, None) && Emitted(nodes, w)
    ensures var r := WalkBags(bags, nodes, keys, w, limit);
            && w.processed <= r.processed && |w.voters| <= |r.voters|
            && (|r.voters| < limit ==>
                  && Closed(nodes, r, None) && Emitted(nodes, r)
                  && forall i :: 0 <= i < |keys| && bags[keys[i]].Some? ==> bags[keys[i]].value in r.processed)
  {
    if keys != [] {
      var v := WalkChain(nodes, bags[keys[0]], w, limit);
      ChainCompletes(nodes, bags[keys[0]], w, limit);
      if |v.voters| < limit {
        BagsComplete(bags, nodes, keys[1..], v, limit);
        var r := WalkBags(bags, nodes, keys, w, limit);
        forall i | 0 <= i < |keys| && bags[keys[i]].Some? ensures |r.voters| < limit ==> bags[keys[i]].value in r.processed {
          assert i > 0 ==> keys[i] == keys[1..][i - 1];
        }
      } else {
        FullBags(bags, nodes, keys[1..], v, limit);
      }
    }
  }

  lemma {:induction false} ClosedUnderFollow(nodes: Nodes, w: Walk, head: Option<Account>, k: nat)
    requires Closed(nodes, w, None) && (head.Some? ==> head.value in w.processed)
    ensures Follow(nodes, head, k).Some? ==> Follow(nodes, head, k).value in w.processed
  {
    if k > 0 {
      ClosedUnderFollow(nodes, w, head, k - 1);
    }
  }

  /** Everything emitted by one chain was emitted before or lies on that chain. */
  lemma {:induction false} ChainIsSound(nodes: Nodes, current: Option<Account>, w: Walk, limit: nat, a: Account) returns (k: nat)
    requires a in WalkChain(nodes, current, w, limit).voters && a !in w.voters
    ensures Follow(nodes, current, k) == Some(a)
    decreases nodes.Keys - w.processed
  {
    var b := current.value;
    if a == b {
      k := 0;
    } else {
      k := ChainIsSound(nodes, nodes[b].next, Walk(w.voters + [b], w.processed + {b}), limit, a);
      FollowTail(nodes, current, k);
      k := k + 1;
    }
  }

  lemma {:induction false} FollowTail(nodes: Nodes, head: Option<Account>, k: nat)
    requires head.Some? && head.value in nodes
    ensures Follow(nodes, head, k + 1) == Follow(nodes, nodes[head.value].next, k)
  {
    if k > 0 {
      FollowTail(nodes, head, k - 1);
    }
  }

  lemma {:induction false} BagsAreSound(bags: Bags, nodes: Nodes, keys: seq<nat>, w: Walk, limit: nat, a: Account)
    requires forall k :: k in keys ==> k in bags
    requires a in WalkBags(bags, nodes, keys, w, limit).voters && a !in w.voters
    ensures Listed(bags, nodes, keys, a)
  {
    var v := WalkChain(nodes, bags[keys[0]], w, limit);
    if a in v.voters {
      var k := ChainIsSound(nodes, bags[keys[0]], w, limit, a);
    } else {
      BagsAreSound(bags, nodes, keys[1..], v, limit, a);
      var i, k: nat :| 0 <= i < |keys[1..]| && Follow(nodes, bags[keys[1..][i]], k) == Some(a);
      assert keys[i + 1] == keys[1..][i];
    }
  }

  /**
   On arbitrary, even corrupt, storage: the walk emits only accounts on the chains, and unless
   it stops at the limit it emits every known account on every chain. Cutting a cycle or a
   shared tail short loses nobody.
   */
  lemma {:induction false} WalkIsComplete(bags: Bags, nodes: Nodes, keys: seq<nat>, limit: nat, a: Account)
    requires forall k :: k in keys ==> k in bags
    ensures var r := WalkBags(bags, nodes, keys, EMPTY, limit);
            && (a in r.voters ==> a in nodes && Listed(bags, nodes, keys, a))
            && (|r.voters| < limit && a in nodes && Listed(bags, nodes, keys, a) ==> a in r.voters)
  {
    var r := WalkBags(bags, nodes, keys, EMPTY, limit);
    WalkIsSane(bags, nodes, keys, EMPTY, limit);
    if a in r.voters {
      BagsAreSound(bags, nodes, keys, EMPTY, limit, a);
    }
    BagsComplete(bags, nodes, keys, EMPTY, limit);
    if |r.voters| < limit && a in nodes && Listed(bags, nodes, keys, a) {
      var i, k: nat :| 0 <= i < |keys| && Follow(nodes, bags[keys[i]], k) == Some(a);
      ClosedUnderFollow(nodes, r, bags[keys[i]], k);
    }
  }

  // ---- the limit only truncates ----

  lemma {:induction false} ChainCapped(nodes: Nodes, current: Option<Account>, w: Walk, small: nat, large: nat)
    requires |w.voters| <= small <= large
    ensures var r, t := WalkChain(nodes, current, w, small), WalkChain(nodes, current, w, large);
            && |w.voters| <= |t.voters| && w.voters == t.voters[..|w.voters|]
            && r.voters == Take(t.voters, small)
            && (|t.voters| < small ==> r == t)
    decreases nodes.Keys - w.processed
  {
    if current.Some? && |w.voters| < large && current.value !in w.processed && current.value in nodes {
      var a := current.value;
      var next := Walk(w.voters + [a], w.processed + {a});
      if |w.voters| < small {
        ChainCapped(nodes, nodes[a].next, next, small, large);
        assert w.voters == next.voters[..|w.voters|];
      } else {
        ChainCapped(nodes, nodes[a].next, next, small + 1, large);
        assert w.voters == next.voters[..|w.voters|];
      }
    }
  }

  /** A smaller limit yields a prefix of the walk with a larger one. */
  lemma {:induction false} WalkCapped(bags: Bags, nodes: Nodes, keys: seq<nat>, w: Walk, small: nat, large: nat)
    requires forall k :: k in keys ==> k in bags
    requires |w.voters| <= small <= large
    ensures var r, t := WalkBags(bags, nodes, keys, w, small), WalkBags(bags, nodes, keys, w, large);
            && |w.voters| <= |t.voters| && w.voters == t.voters[..|w.voters|]
            && r.voters == Take(t.voters, small)
  {
    if keys != [] {
      var r, t := WalkChain(nodes, bags[keys[0]], w, small), WalkChain(nodes, bags[keys[0]], w, large);
      ChainCapped(nodes, bags[keys[0]], w, small, large);
      if |t.voters| < small {
        WalkCapped(bags, nodes, keys[1..], t, small, large);
      } else {
        FullBags(bags, nodes, keys[1..], r, small);
        ChainCapped(nodes, bags[keys[0]], w, large, large);
        ChainBounded(nodes, bags[keys[0]], w, large);
        WalkCapped(bags, nodes, keys[1..], t, large, large);
      }
    }
  }

  lemma {:induction false} ChainBounded(nodes: Nodes, current: Option<Account>, w: Walk, limit: nat)
    requires |w.voters| <= limit
    ensures |WalkChain(nodes, current, w, limit).voters| <= limit
    decreases nodes.Keys - w.processed
  {
    if current.Some? && |w.voters| < limit && current.value !in w.processed && current.value in nodes {
      var a := current.value;
      ChainBounded(nodes, nodes[a].next, Walk(w.voters + [a], w.processed + {a}), limit);
    }
  }

  // ---- a well-formed list ----

  /** `chain` is the whole linked list starting at `head`. */
  ghost predicate IsChain(nodes: Nodes, head: Option<Account>, chain: seq<Account>)
    decreases |chain|
  {
    if chain == [] then head.None? else
      head == Some(chain[0]) && chain[0] in nodes && IsChain(nodes, nodes[chain[0]].next, chain[1..])
  }

  /** The bags of `keys` hold the given chains, and no account occurs twice. */
  ghost predicate WellFormed(bags: Bags, nodes: Nodes, keys: seq<nat>, chains: seq<seq<Account>>)
    requires forall k :: k in keys ==> k in bags
  {
    && |chains| == |keys|
    && (forall i :: 0 <= i < |keys| ==> IsChain(nodes, bags[keys[i]], chains[i]))
    && Distinct(Flatten(chains))
  }

  /** `w` after emitting `more`, as far as the limit allows. */
  function Emit(w: Walk, more: seq<Account>, limit: nat): Walk
    requires |w.voters| <= limit
  {
    var taken := Take(more, limit - |w.voters|);
    Walk(w.voters + taken, w.processed + Elements(taken))
  }

  lemma {:induction false} EmitNothing(w: Walk, limit: nat)
    requires |w.voters| <= limit
    ensures Emit(w, [], limit) == w
  {
    assert Elements<Account>([]) == {};
  }

  lemma {:induction false} EmitTwice(w: Walk, a: seq<Account>, b: seq<Account>, limit: nat)
    requires |w.voters| <= limit
    ensures Emit(Emit(w, a, limit), b, limit) == Emit(w, a + b, limit)
  {
    var room := limit - |w.voters|;
    var x, y := Take(a, room), Take(b, room - |Take(a, room)|);
    TakeAppend(a, b, room);
    ElementsAppend(x, y);
    Associative(w.voters, x, y);
  }

  lemma {:induction false} WalkWholeChain(nodes: Nodes, head: Option<Account>, chain: seq<Account>, w: Walk, limit: nat)
    requires IsChain(nodes, head, chain) && Distinct(chain)
    requires |w.voters| <= limit && forall a :: a in chain ==> a !in w.processed
    ensures WalkChain(nodes, head, w, limit) == Emit(w, chain, limit)
    decreases |chain|
  {
    if chain == [] {
      EmitNothing(w, limit);
    } else if |w.voters| == limit {
      assert Take(chain, 0) == [];
      EmitNothing(w, limit);
    } else {
      var a, rest := chain[0], chain[1..];
      var next := Walk(w.voters + [a], w.processed + {a});
      assert chain == [a] + rest;
      WalkWholeChain(nodes, nodes[a].next, rest, next, limit);
      assert Elements([a]) == {a};
      EmitTwice(w, [a], rest, limit);
    }
  }

  lemma {:induction false} DistinctParts<T>(a: seq<T>, b: seq<T>)
    requires Distinct(a + b)
    ensures Distinct(a) && Distinct(b) && forall x :: x in a ==> x !in b
  {
    var s := a + b;
    assert forall i :: 0 <= i < |a| ==> s[i] == a[i];
    assert forall i :: 0 <= i < |b| ==> s[|a| + i] == b[i];
  }

  lemma {:induction false} WalkWellFormed(
    bags: Bags, nodes: Nodes, keys: seq<nat>, chains: seq<seq<Account>>, w: Walk, limit: nat)
    requires forall k :: k in keys ==> k in bags
    requires WellFormed(bags, nodes, keys, chains)
    requires |w.voters| <= limit && forall a :: a in Flatten(chains) ==> a !in w.processed
    ensures WalkBags(bags, nodes, keys, w, limit) == Emit(w, Flatten(chains), limit)
  {
    if keys == [] {
      EmitNothing(w, limit);
    } else {
      var first, rest := chains[0], chains[1..];
      DistinctParts(first, Flatten(rest));
      WalkWholeChain(nodes, bags[keys[0]], first, w, limit);
      var v := Emit(w, first, limit);
      assert WellFormed(bags, nodes, keys[1..], rest);
      WalkWellFormed(bags, nodes, keys[1..], rest, v, limit);
      EmitTwice(w, first, Flatten(rest), limit);
    }
  }

  /** On a well-formed list the walk is the prefix of its chains, concatenated bag by bag. */
  lemma {:induction false} WalkIsConcatenatedChains(
    bags: Bags, nodes: Nodes, keys: seq<nat>, chains: seq<seq<Account>>, limit: nat)
    requires forall k :: k in keys ==> k in bags
    requires WellFormed(bags, nodes, keys, chains)
    ensures WalkBags(bags, nodes, keys, EMPTY, limit).voters == Take(Flatten(chains), limit)
  {
    WalkWellFormed(bags, nodes, keys, chains, EMPTY, limit);
  }

  // ---- scores across bags ----

  /** The bag an account is filed in admits its score: above every lower bag, at most the bag itself. */
  ghost predicate FiledByScore(nodes: Nodes, keys: seq<nat>, a: Account)
    requires a in nodes
  {
    var n := nodes[a];
    && n.score <= n.bagUpper
    && forall i :: 0 <= i < |keys| && keys[i] < n.bagUpper ==> keys[i] < n.score
  }

  ghost predicate FiledInBag(nodes: Nodes, keys: seq<nat>, chains: seq<seq<Account>>)
    requires |chains| == |keys|
  {
    forall i, a :: 0 <= i < |chains| && a in chains[i] ==> a in nodes && nodes[a].bagUpper == keys[i]
  }

  lemma {:induction false} BagsDescend(nodes: Nodes, keys: seq<nat>, chains: seq<seq<Account>>, i: nat, j: nat)
    requires |chains| == |keys| && StrictlyDescending(keys) && FiledInBag(nodes, keys, chains)
    requires i <= j < |Flatten(chains)|
    ensures Flatten(chains)[i] in nodes && Flatten(chains)[j] in nodes
    ensures nodes[Flatten(chains)[i]].bagUpper >= nodes[Flatten(chains)[j]].bagUpper
    ensures nodes[Flatten(chains)[j]].bagUpper in keys
  {
    var all, first, rest := Flatten(chains), chains[0], Flatten(chains[1..]);
    assert FiledInBag(nodes, keys[1..], chains[1..]);
    if j < |first| {
      assert all[i] in first && all[j] in first;
    } else {
      var k := j - |first|;
      BagsDescend(nodes, keys[1..], chains[1..], if i < |first| then k else i - |first|, k);
      var b :| 0 <= b < |keys[1..]| && keys[1..][b] == nodes[all[j]].bagUpper;
      assert keys[b + 1] == keys[1..][b];
      if i < |first| {
        assert all[i] in first;
      }
    }
  }

  /**
   On a well-formed list whose nodes are filed by score, an earlier voter from another bag has a
   strictly larger score. Within one bag the list order carries no such promise.
   */
  lemma {:induction false} ScoresDescendAcrossBags(
    bags: Bags, nodes: Nodes, keys: seq<nat>, chains: seq<seq<Account>>, limit: nat, i: nat, j: nat)
    requires forall k :: k in keys ==> k in bags
    requires WellFormed(bags, nodes, keys, chains) && StrictlyDescending(keys) && FiledInBag(nodes, keys, chains)
    requires forall a :: a in Flatten(chains) && a in nodes ==> FiledByScore(nodes, keys, a)
    requires i < j < |WalkBags(bags, nodes, keys, EMPTY, limit).voters|
    ensures var voters := WalkBags(bags, nodes, keys, EMPTY, limit).voters;
            && voters[i] in nodes && voters[j] in nodes
            && (nodes[voters[i]].bagUpper == nodes[voters[j]].bagUpper || nodes[voters[i]].score > nodes[voters[j]].score)
  {
    WalkIsConcatenatedChains(bags, nodes, keys, chains, limit);
    var voters, all := WalkBags(bags, nodes, keys, EMPTY, limit).voters, Flatten(chains);
    assert voters[i] == all[i] && voters[j] == all[j];
    BagsDescend(nodes, keys, chains, i, j);
    assert FiledByScore(nodes, keys, all[i]) && FiledByScore(nodes, keys, all[j]);
  }
}
