/**
 The miner's snapshot cache: pages are fetched once and kept for as long as the hash stored on
 chain says they are current. The simple program it must agree with reads every page afresh.
 */
module SnapshotCache {
  import opened Common

  type Hash = nat
  type VoterPage = seq<Voter>
  type TargetPage = seq<Account>

  datatype Key = Key(round: nat, page: nat)

  /** The snapshot storage at one block, which never changes once read. */
  datatype AtBlock = AtBlock(
    voterPages: map<Key, VoterPage>, voterHashes: map<Key, Hash>,
    targetPages: map<Key, TargetPage>, targetHashes: map<Key, Hash>)

  /** The chain's page hashes. */
  datatype Hashing = Hashing(voter: VoterPage -> Hash, target: TargetPage -> Hash)

  ghost predicate CollisionFree(h: Hashing) {
    && (forall a, b :: h.voter(a) == h.voter(b) ==> a == b)
    && (forall a, b :: h.target(a) == h.target(b) ==> a == b)
  }

  /** A page and its hash are stored together. */
  ghost predicate Consistent(h: Hashing, at: AtBlock) {
    && at.voterPages.Keys == at.voterHashes.Keys
    && (forall k :: k in at.voterPages ==> at.voterHashes[k] == h.voter(at.voterPages[k]))
    && at.targetPages.Keys == at.targetHashes.Keys
    && (forall k :: k in at.targetPages ==> at.targetHashes[k] == h.target(at.targetPages[k]))
  }

  datatype Error = EmptySnapshot | RpcFailed

  /** The reads one fetch performs, each of which the network may refuse. */
  datatype Read = VoterHash(page: nat) | VoterData(page: nat) | TargetHash | TargetData

  type Faults = Read -> bool

  datatype Cache = Cache(target: Option<(TargetPage, Hash)>, voter: map<nat, (VoterPage, Hash)>)

  const EMPTY := Cache(None, map[])

  datatype Fetched = Fetched(cache: Cache, result: Result<(), Error>)

  // ---- cache operations on values ----

  function UpdateVoter(c: Cache, at: AtBlock, round: nat, page: nat, fails: Faults): Fetched {
    var k := Key(round, page);
    if fails(VoterHash(page)) then Fetched(c, Err(RpcFailed))
    else if k !in at.voterHashes then Fetched(c, Err(EmptySnapshot))
    else if page in c.voter && c.voter[page].1 == at.voterHashes[k] then Fetched(c, Ok(()))
    else if fails(VoterData(page)) then Fetched(c, Err(RpcFailed))
    else if k !in at.voterPages then Fetched(c, Err(EmptySnapshot))
    else Fetched(c.(voter := c.voter[page := (at.voterPages[k], at.voterHashes[k])]), Ok(()))
  }

  function UpdateTarget(c: Cache, at: AtBlock, round: nat, page: nat, fails: Faults): Fetched {
    var k := Key(round, page);
    if fails(TargetHash) then Fetched(c, Err(RpcFailed))
    else if k !in at.targetHashes then Fetched(c, Err(EmptySnapshot))
    else if c.target.Some? && c.target.value.1 == at.targetHashes[k] then Fetched(c, Ok(()))
    else if fails(TargetData) then Fetched(c, Err(RpcFailed))
    else if k !in at.targetPages then Fetched(c, Err(EmptySnapshot))
    else Fetched(c.(target := Some((at.targetPages[k], at.targetHashes[k]))), Ok(()))
  }

  /** Update voter pages from `page` on; a lossy fetch passes over pages not on chain yet. */
  function UpdateVoters(c: Cache, at: AtBlock, round: nat, page: nat, n: nat, lossy: bool, fails: Faults): Fetched
    requires page <= n
    decreases n - page
  {
    if page == n then Fetched(c, Ok(())) else
      var f := UpdateVoter(c, at, round, page, fails);
      if f.result.Ok? || (lossy && f.result.error == EmptySnapshot)
      then UpdateVoters(f.cache, at, round, page + 1, n, lossy, fails)
      else f
  }

  function FetchMissing(c: Cache, at: AtBlock, round: nat, n: nat, fails: Faults): Fetched
    requires n > 0
  {
    var f := UpdateVoters(c, at, round, 0, n, false, fails);
    if f.result.Err? then f else UpdateTarget(f.cache, at, round, n - 1, fails)
  }

  /** Whatever goes wrong with the target page is ignored here. */
  function FetchMissingLossy(c: Cache, at: AtBlock, round: nat, n: nat, fails: Faults): Fetched
    requires n > 0
  {
    var f := UpdateVoters(c, at, round, 0, n, true, fails);
    if f.result.Err? then f else Fetched(UpdateTarget(f.cache, at, round, n - 1, fails).cache, Ok(()))
  }

  /** The cached pages below `n`, in page order. */
  function PagesInOrder(c: Cache, n: nat): seq<VoterPage> {
    if n == 0 then [] else PagesInOrder(c, n - 1) + if n - 1 in c.voter then [c.voter[n - 1].0] else []
  }

  /** `None` is the panic on a target snapshot that was never fetched. */
  function Contents(c: Cache, n: nat): Option<(TargetPage, seq<VoterPage>)> {
    if c.target.None? then None else Some((c.target.value.0, PagesInOrder(c, n)))
  }

  // ---- the simple program ----

  function DirectVoters(at: AtBlock, round: nat, n: nat): Option<seq<VoterPage>> {
    if n == 0 then Some([]) else
      match DirectVoters(at, round, n - 1)
      case None => None
      case Some(init) =>
        if Key(round, n - 1) in at.voterPages then Some(init + [at.voterPages[Key(round, n - 1)]]) else None
  }

  /** Fetch the target page and every voter page; `None` if one is missing. */
  function Direct(at: AtBlock, round: nat, n: nat): Option<(TargetPage, seq<VoterPage>)>
    requires n > 0
  {
    if Key(round, n - 1) !in at.targetPages then None else
      match DirectVoters(at, round, n)
      case None => None
      case Some(pages) => Some((at.targetPages[Key(round, n - 1)], pages))
  }

  // ---- soundness of every cache state ----

  /** Each cached page carries its own hash; nothing is said about which round it came from. */
  ghost predicate Sound(h: Hashing, c: Cache, n: nat) {
    && (forall p :: p in c.voter ==> p < n && c.voter[p].1 == h.voter(c.voter[p].0))
    && (c.target.Some? ==> c.target.value.1 == h.target(c.target.value.0))
  }

  /** The cached page is the one on chain. */
  ghost predicate Current(c: Cache, at: AtBlock, round: nat, page: nat) {
    Key(round, page) in at.voterPages && page in c.voter && c.voter[page].0 == at.voterPages[Key(round, page)]
  }

  /** The cached target page is the one on chain, which is filed under the last page. */
  ghost predicate TargetCurrent(c: Cache, at: AtBlock, round: nat, n: nat)
    requires n > 0
  {
    && Key(round, n - 1) in at.targetPages
    && c.target.Some? && c.target.value.0 == at.targetPages[Key(round, n - 1)]
  }

  /** The network refuses some read. */
  ghost predicate Refused(fails: Faults) {
    exists r :: fails(r)
  }

  ghost predicate Missing(at: AtBlock, round: nat, page: nat, n: nat) {
    exists p :: page <= p < n && Key(round, p) !in at.voterPages
  }

  lemma {:induction false} UpdateVoterWorks(h: Hashing, c: Cache, at: AtBlock, round: nat, page: nat, n: nat, fails: Faults)
    requires CollisionFree(h) && Consistent(h, at) && Sound(h, c, n) && page < n
    ensures var f := UpdateVoter(c, at, round, page, fails);
            && Sound(h, f.cache, n)
            && f.cache.target == c.target
            && (forall p :: p != page ==> (p in f.cache.voter <==> p in c.voter))
            && (forall p :: p != page && p in c.voter ==> f.cache.voter[p] == c.voter[p])
            && (f.result.Ok? ==> Current(f.cache, at, round, page))
            && (f.result.Err? ==> Refused(fails) || (f.result.error.EmptySnapshot? && Key(round, page) !in at.voterPages))
            && (f.result.Err? ==> f.cache == c)
            && (f.result.Err? && f.result.error.EmptySnapshot? ==> Key(round, page) !in at.voterPages)
            && (f.result.Err? && f.result.error.RpcFailed? ==> Refused(fails))
  {
  }

  lemma {:induction false} UpdateVotersWorks(
    h: Hashing, c: Cache, at: AtBlock, round: nat, page: nat, n: nat, lossy: bool, fails: Faults)
    requires CollisionFree(h) && Consistent(h, at) && Sound(h, c, n) && page <= n
    ensures var f := UpdateVoters(c, at, round, page, n, lossy, fails);
            && Sound(h, f.cache, n)
            && (f.result.Ok? ==> forall p :: page <= p < n ==>
                  Current(f.cache, at, round, p) || (lossy && Key(round, p) !in at.voterPages))
            && (forall p: nat :: p < page && p in c.voter ==> p in f.cache.voter && f.cache.voter[p] == c.voter[p])
            && (f.result.Err? ==> Refused(fails) || (!lossy && Missing(at, round, page, n)))
            && (f.result.Err? && f.result.error.EmptySnapshot? ==> !lossy && Missing(at, round, page, n))
            && (f.result.Err? && f.result.error.RpcFailed? ==> Refused(fails))
            && f.cache.target == c.target
    decreases n - page
  {
    if page < n {
      UpdateVoterWorks(h, c, at, round, page, n, fails);
      var f := UpdateVoter(c, at, round, page, fails);
      if f.result.Ok? || (lossy && f.result.error == EmptySnapshot) {
        UpdateVotersWorks(h, f.cache, at, round, page + 1, n, lossy, fails);
      }
    }
  }

  lemma {:induction false} UpdateTargetWorks(h: Hashing, c: Cache, at: AtBlock, round: nat, page: nat, n: nat, fails: Faults)
    requires CollisionFree(h) && Consistent(h, at) && Sound(h, c, n)
    ensures var f := UpdateTarget(c, at, round, page, fails);
            && Sound(h, f.cache, n)
            && f.cache.voter == c.voter
            && (f.result.Ok? ==> Key(round, page) in at.targetPages && f.cache.target.Some?
                                 && f.cache.target.value.0 == at.targetPages[Key(round, page)])
            && (f.result.Err? && f.result.error.EmptySnapshot? ==> Key(round, page) !in at.targetPages)
            && (f.result.Err? && f.result.error.RpcFailed? ==> Refused(fails))
  {
  }

  lemma {:induction false} InOrder(c: Cache, at: AtBlock, round: nat, n: nat)
    requires forall p :: 0 <= p < n ==> Current(c, at, round, p)
    ensures DirectVoters(at, round, n) == Some(PagesInOrder(c, n))
  {
    if n > 0 {
      assert Current(c, at, round, n - 1);
      InOrder(c, at, round, n - 1);
    }
  }

  lemma {:induction false} DirectNeedsAll(at: AtBlock, round: nat, n: nat, p: nat)
    requires p < n && Key(round, p) !in at.voterPages
    ensures DirectVoters(at, round, n).None?
  {
    if p < n - 1 {
      DirectNeedsAll(at, round, n - 1, p);
    }
  }

  lemma {:induction false} VotersRefineDirect(h: Hashing, c: Cache, at: AtBlock, round: nat, n: nat, fails: Faults)
    requires CollisionFree(h) && Consistent(h, at) && Sound(h, c, n)
    ensures var v := UpdateVoters(c, at, round, 0, n, false, fails);
            && Sound(h, v.cache, n)
            && (v.result.Ok? ==> DirectVoters(at, round, n) == Some(PagesInOrder(v.cache, n)))
            && (v.result.Err? && v.result.error.EmptySnapshot? ==> DirectVoters(at, round, n).None?)
            && (v.result.Err? && v.result.error.RpcFailed? ==> Refused(fails))
  {
    UpdateVotersWorks(h, c, at, round, 0, n, false, fails);
    var v := UpdateVoters(c, at, round, 0, n, false, fails);
    if v.result.Ok? {
      InOrder(v.cache, at, round, n);
    } else if Missing(at, round, 0, n) {
      var p :| 0 <= p < n && Key(round, p) !in at.voterPages;
      DirectNeedsAll(at, round, n, p);
    }
  }

  /**
   From any sound cache, whatever earlier rounds, lossy fetches or clears left in it: a successful
   fetch makes the cache read exactly like the simple program at this block. A failed fetch still
   leaves the cache sound. Without network faults it succeeds exactly when the simple program does.
   */
  lemma {:induction false} FetchRefinesDirect(h: Hashing, c: Cache, at: AtBlock, round: nat, n: nat, fails: Faults)
    requires CollisionFree(h) && Consistent(h, at) && Sound(h, c, n) && n > 0
    ensures var f := FetchMissing(c, at, round, n, fails);
            && Sound(h, f.cache, n)
            && (f.result.Ok? ==> Direct(at, round, n).Some? && Contents(f.cache, n) == Direct(at, round, n))
            && (f.result.Err? && f.result.error.EmptySnapshot? ==> Direct(at, round, n).None?)
            && (!Refused(fails) ==> (f.result.Ok? <==> Direct(at, round, n).Some?))
            && (f.result.Err? && f.result.error.RpcFailed? ==> Refused(fails))
  {
    VotersRefineDirect(h, c, at, round, n, fails);
    var v := UpdateVoters(c, at, round, 0, n, false, fails);
    if v.result.Ok? {
      UpdateTargetWorks(h, v.cache, at, round, n - 1, n, fails);
      SameVoters(v.cache, FetchMissing(c, at, round, n, fails).cache, n);
    }
  }

  lemma {:induction false} SameVoters(a: Cache, b: Cache, n: nat)
    requires a.voter == b.voter
    ensures PagesInOrder(a, n) == PagesInOrder(b, n)
  {
    if n > 0 {
      SameVoters(a, b, n - 1);
    }
  }

  /** A lossy fetch keeps the cache sound and, unless the network fails, brings every page on chain up to date. */
  lemma {:induction false} LossyFetchKeepsSound(h: Hashing, c: Cache, at: AtBlock, round: nat, n: nat, fails: Faults)
    requires CollisionFree(h) && Consistent(h, at) && Sound(h, c, n) && n > 0
    ensures var f := FetchMissingLossy(c, at, round, n, fails);
            && Sound(h, f.cache, n)
            && (f.result.Ok? ==> forall p :: 0 <= p < n && Key(round, p) in at.voterPages ==> Current(f.cache, at, round, p))
            && (!Refused(fails) ==> f.result.Ok?)
            && (!Refused(fails) && Key(round, n - 1) in at.targetPages ==> TargetCurrent(f.cache, at, round, n))
            && (f.result.Err? ==> f.result.error == RpcFailed)
  {
    UpdateVotersWorks(h, c, at, round, 0, n, true, fails);
    UpdateTargetWorks(h, UpdateVoters(c, at, round, 0, n, true, fails).cache, at, round, n - 1, n, fails);
  }

  /** The hash on chain is the one kept with the cached page. */
  ghost predicate HashKnown(c: Cache, at: AtBlock, round: nat, page: nat) {
    && Key(round, page) in at.voterHashes
    && page in c.voter && c.voter[page].1 == at.voterHashes[Key(round, page)]
  }

  ghost predicate TargetHashKnown(c: Cache, at: AtBlock, round: nat, n: nat)
    requires n > 0
  {
    && Key(round, n - 1) in at.targetHashes
    && c.target.Some? && c.target.value.1 == at.targetHashes[Key(round, n - 1)]
  }

  lemma {:induction false} KnownVotersAreNotFetched(c: Cache, at: AtBlock, round: nat, page: nat, n: nat, fails: Faults)
    requires page <= n && forall p :: page <= p < n ==> HashKnown(c, at, round, p) && !fails(VoterHash(p))
    ensures UpdateVoters(c, at, round, page, n, false, fails) == Fetched(c, Ok(()))
    decreases n - page
  {
    if page < n {
      assert HashKnown(c, at, round, page) && !fails(VoterHash(page));
      KnownVotersAreNotFetched(c, at, round, page + 1, n, fails);
    }
  }

  /** Pages whose hash is known are not fetched again: it is enough that the hashes can be read. */
  lemma {:induction false} KnownPagesAreNotFetched(c: Cache, at: AtBlock, round: nat, n: nat, fails: Faults)
    requires n > 0 && !fails(TargetHash) && TargetHashKnown(c, at, round, n)
    requires forall p :: 0 <= p < n ==> HashKnown(c, at, round, p) && !fails(VoterHash(p))
    ensures FetchMissing(c, at, round, n, fails) == Fetched(c, Ok(()))
  {
    KnownVotersAreNotFetched(c, at, round, 0, n, fails);
  }

  // ---- every history of the cache ----

  datatype Operation =
    | Clear
    | Lossy(at: AtBlock, round: nat, fails: Faults)
    | Full(at: AtBlock, round: nat, fails: Faults)

  function Operate(c: Cache, n: nat, op: Operation): Cache
    requires n > 0
  {
    match op
    case Clear => EMPTY
    case Lossy(at, round, fails) => FetchMissingLossy(c, at, round, n, fails).cache
    case Full(at, round, fails) => FetchMissing(c, at, round, n, fails).cache
  }

  function OperateAll(n: nat, ops: seq<Operation>): Cache
    requires n > 0
  {
    if ops == [] then EMPTY else Operate(OperateAll(n, ops[..|ops| - 1]), n, ops[|ops| - 1])
  }

  /** After any history of clears and fetches, in any rounds and with any faults, the cache is sound. */
  lemma {:induction false} EveryHistoryIsSound(h: Hashing, n: nat, ops: seq<Operation>)
    requires CollisionFree(h) && n > 0
    requires forall i :: 0 <= i < |ops| && !ops[i].Clear? ==> Consistent(h, ops[i].at)
    ensures Sound(h, OperateAll(n, ops), n)
  {
    if ops != [] {
      var init, op := ops[..|ops| - 1], ops[|ops| - 1];
      EveryHistoryIsSound(h, n, init);
      var c := OperateAll(n, init);
      match op {
        case Clear =>
        case Lossy(at, round, fails) => LossyFetchKeepsSound(h, c, at, round, n, fails);
        case Full(at, round, fails) => FetchRefinesDirect(h, c, at, round, n, fails);
      }
    }
  }

  // ---- the object the miner owns ----

  class Snapshot {
    var target: Option<(TargetPage, Hash)>
    var voter: map<nat, (VoterPage, Hash)>
    const nPages: nat

    ghost function Value(): Cache
      reads this
    {
      Cache(target, voter)
    }

    constructor (n: nat)
      ensures nPages == n && Value() == EMPTY && Bounded()
    {
      target := None;
      voter := map[];
      nPages := n;
    }

    /** Only pages below the number of pages are ever stored. */
    ghost predicate Bounded()
      reads this
    {
      forall p :: p in voter ==> p < nPages
    }

    predicate NeedsTarget(hash: Hash)
      reads this
    {
      target.None? || target.value.1 != hash
    }

    predicate NeedsVoterPage(page: nat, hash: Hash)
      reads this
    {
      page !in voter || voter[page].1 != hash
    }

    method SetTarget(page: TargetPage, hash: Hash)
      modifies this`target
      ensures target == Some((page, hash))
      ensures old(Bounded()) ==> Bounded()
    {
      target := Some((page, hash));
    }

    /** The precondition is the source's own assertion on the page number. */
    method SetVoterPage(page: nat, data: VoterPage, hash: Hash)
      requires page < nPages
      modifies this`voter
      ensures voter == old(voter)[page := (data, hash)]
      ensures old(Bounded()) ==> Bounded()
    {
      voter := voter[page := (data, hash)];
    }

    method Reset()
      modifies this
      ensures Value() == EMPTY && Bounded()
    {
      target := None;
      voter := map[];
    }

    method Get() returns (r: Option<(TargetPage, seq<VoterPage>)>)
      requires Bounded()
      ensures r == Contents(Value(), nPages)
    {
      if target.None? {
        return None;
      }
      var pages: seq<VoterPage> := [];
      for p := 0 to nPages
        invariant pages == PagesInOrder(Value(), p)
      {
        if p in voter {
          pages := pages + [voter[p].0];
        }
      }
      r := Some((target.value.0, pages));
    }

    method CheckAndUpdateVoter(at: AtBlock, round: nat, page: nat, fails: Faults) returns (r: Result<(), Error>)
      requires page < nPages
      modifies this
      ensures Fetched(Value(), r) == UpdateVoter(old(Value()), at, round, page, fails)
      ensures old(Bounded()) ==> Bounded()
    {
      var k := Key(round, page);
      if fails(VoterHash(page)) {
        return Err(RpcFailed);
      }
      if k !in at.voterHashes {
        return Err(EmptySnapshot);
      }
      var hash := at.voterHashes[k];
      if NeedsVoterPage(page, hash) {
        if fails(VoterData(page)) {
          return Err(RpcFailed);
        }
        if k !in at.voterPages {
          return Err(EmptySnapshot);
        }
        SetVoterPage(page, at.voterPages[k], hash);
      }
      r := Ok(());
    }

    method CheckAndUpdateTarget(at: AtBlock, round: nat, page: nat, fails: Faults) returns (r: Result<(), Error>)
      modifies this
      ensures Fetched(Value(), r) == UpdateTarget(old(Value()), at, round, page, fails)
      ensures old(Bounded()) ==> Bounded()
    {
      var k := Key(round, page);
      if fails(TargetHash) {
        return Err(RpcFailed);
      }
      if k !in at.targetHashes {
        return Err(EmptySnapshot);
      }
      var hash := at.targetHashes[k];
      if NeedsTarget(hash) {
        if fails(TargetData) {
          return Err(RpcFailed);
        }
        if k !in at.targetPages {
          return Err(EmptySnapshot);
        }
        SetTarget(at.targetPages[k], hash);
      }
      r := Ok(());
    }

    method FetchMissingSnapshots(at: AtBlock, round: nat, fails: Faults) returns (r: Result<(), Error>)
      requires nPages > 0
      modifies this
      ensures Fetched(Value(), r) == FetchMissing(old(Value()), at, round, nPages, fails)
      ensures old(Bounded()) ==> Bounded()
    {
      for page := 0 to nPages
        invariant UpdateVoters(Value(), at, round, page, nPages, false, fails)
               == UpdateVoters(old(Value()), at, round, 0, nPages, false, fails)
        invariant old(Bounded()) ==> Bounded()
      {
        var f := CheckAndUpdateVoter(at, round, page, fails);
        if f.Err? {
          return f;
        }
      }
      r := CheckAndUpdateTarget(at, round, nPages - 1, fails);
    }

    method FetchMissingSnapshotsLossy(at: AtBlock, round: nat, fails: Faults) returns (r: Result<(), Error>)
      requires nPages > 0
      modifies this
      ensures Fetched(Value(), r) == FetchMissingLossy(old(Value()), at, round, nPages, fails)
      ensures old(Bounded()) ==> Bounded()
    {
      for page := 0 to nPages
        invariant UpdateVoters(Value(), at, round, page, nPages, true, fails)
               == UpdateVoters(old(Value()), at, round, 0, nPages, true, fails)
        invariant old(Bounded()) ==> Bounded()
      {
        var f := CheckAndUpdateVoter(at, round, page, fails);
        if f.Err? && f.error != EmptySnapshot {
          return f;
        }
      }
      var _ := CheckAndUpdateTarget(at, round, nPages - 1, fails);
      r := Ok(());
    }
  }
}
