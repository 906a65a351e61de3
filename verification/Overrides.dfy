/**
 Election overrides. The code edits two lists in place; the meaning is a pair of maps from
 accounts to their final entry, in which later stages take precedence over earlier ones.
 */
module Overrides {
  import opened Common

  datatype CandidateInclude = Address(address: string) | WithSelfStake(address: string, selfStake: nat)

  datatype VoterInclude = VoterInclude(address: string, stake: nat, targets: seq<string>)

  datatype Overrides = Overrides(
    candidatesInclude: seq<CandidateInclude>, candidatesExclude: seq<string>,
    votersInclude: seq<VoterInclude>, votersExclude: seq<string>)

  datatype OverrideError =
    | InvalidCandidateExclude(text: string)
    | InvalidCandidateInclude(text: string)
    | InvalidVoterExclude(text: string)
    | InvalidVoterInclude(text: string)
    | InvalidVoterTarget(text: string)

  /** Reading an address; the format itself is not part of this model. */
  type Parser = string -> Option<Account>

  // ---- lists of entries ----

  /** Index of the first entry of `a`, or the length. */
  function First<T>(list: seq<Entry<T>>, a: Account): (i: nat)
    ensures i <= |list|
    ensures forall j :: 0 <= j < i ==> list[j].account != a
    ensures i < |list| ==> list[i].account == a
  {
    if list == [] || list[0].account == a then 0 else
      var i := First(list[1..], a);
      assert forall j :: 0 < j <= i ==> list[j] == list[1..][j - 1];
      1 + i
  }

  /** The value an account has in a list: that of its first entry. */
  function At<T>(list: seq<Entry<T>>, a: Account): Option<T> {
    var i := First(list, a);
    if i < |list| then Some(list[i].value) else None
  }

  predicate Mentions<T>(list: seq<Entry<T>>, a: Account) {
    exists i :: 0 <= i < |list| && list[i].account == a
  }

  predicate Unique<T>(list: seq<Entry<T>>) {
    forall i, j :: 0 <= i < j < |list| ==> list[i].account != list[j].account
  }

  function Retain<T>(list: seq<Entry<T>>, excluded: set<Account>): seq<Entry<T>> {
    if list == [] then [] else
      (if list[0].account in excluded then [] else [list[0]]) + Retain(list[1..], excluded)
  }

  /** Overwrite the first entry of the account, or append one. */
  function Put<T>(list: seq<Entry<T>>, e: Entry<T>): seq<Entry<T>> {
    var i := First(list, e.account);
    if i < |list| then list[i := e] else list + [e]
  }

  function PutAll<T>(list: seq<Entry<T>>, edits: seq<Entry<T>>): seq<Entry<T>> {
    if edits == [] then list else Put(PutAll(list, edits[..|edits| - 1]), edits[|edits| - 1])
  }

  /** The index of every account, by its last entry. */
  function IndexMap<T>(list: seq<Entry<T>>): (m: map<Account, nat>)
    ensures forall a :: a in m ==> m[a] < |list| && list[m[a]].account == a
    ensures forall a :: a in m <==> Mentions(list, a)
  {
    if list == [] then map[] else
      var n := |list| - 1;
      assert forall a :: Mentions(list[..n], a) ==> Mentions(list, a);
      IndexMap(list[..n])[list[n].account := n]
  }

  /** Overwrite at the index recorded for the account in `index`, or append. */
  function OverlayAll<T>(list: seq<Entry<T>>, index: map<Account, nat>, edits: seq<Entry<T>>): (r: seq<Entry<T>>)
    requires forall a :: a in index ==> index[a] < |list|
    ensures |r| >= |list|
  {
    if edits == [] then list else
      var r, e := OverlayAll(list, index, edits[..|edits| - 1]), edits[|edits| - 1];
      if e.account in index then r[index[e.account] := e] else r + [e]
  }

  // ---- parsed overrides ----

  datatype Parsed = Parsed(
    included: seq<Candidate>, excluded: set<Account>, votersInclude: seq<Voter>, votersExclude: set<Account>)

  /** Read a list in order; the first failure is the result. */
  function Traverse<A, B, E>(read: A -> Result<B, E>, list: seq<A>): Result<seq<B>, E> {
    if list == [] then Ok([]) else
      match Traverse(read, list[..|list| - 1])
      case Err(e) => Err(e)
      case Ok(init) =>
        match read(list[|list| - 1])
        case Err(e) => Err(e)
        case Ok(b) => Ok(init + [b])
  }

  /** A reader for addresses that reports a bad one through `blame`. */
  function AddressReader(parse: Parser, blame: string -> OverrideError): string -> Result<Account, OverrideError> {
    t => if parse(t).Some? then Ok(parse(t).value) else Err(blame(t))
  }

  function Parts(c: CandidateInclude): (string, nat) {
    match c
    case Address(address) => (address, 0)
    case WithSelfStake(address, selfStake) => (address, selfStake)
  }

  function CandidateReader(parse: Parser): CandidateInclude -> Result<Candidate, OverrideError> {
    c => match parse(Parts(c).0)
         case None => Err(InvalidCandidateInclude(Parts(c).0))
         case Some(a) => Ok(Entry(a, Parts(c).1))
  }

  function VoterReader(parse: Parser): VoterInclude -> Result<Voter, OverrideError> {
    (v: VoterInclude) => match parse(v.address)
         case None => Err(InvalidVoterInclude(v.address))
         case Some(a) =>
           match Traverse(AddressReader(parse, t => InvalidVoterTarget(t)), v.targets)
           case Err(e) => Err(e)
           case Ok(targets) => Ok(Entry(a, Vote(v.stake, targets)))
  }

  /** Every address is read, in the order of the four stages; the first unreadable one is reported. */
  function Parse(parse: Parser, o: Overrides): Result<Parsed, OverrideError> {
    match Traverse(AddressReader(parse, t => InvalidCandidateExclude(t)), o.candidatesExclude)
    case Err(e) => Err(e)
    case Ok(excluded) =>
      match Traverse(CandidateReader(parse), o.candidatesInclude)
      case Err(e) => Err(e)
      case Ok(included) =>
        match Traverse(AddressReader(parse, t => InvalidVoterExclude(t)), o.votersExclude)
        case Err(e) => Err(e)
        case Ok(votersExclude) =>
          match Traverse(VoterReader(parse), o.votersInclude)
          case Err(e) => Err(e)
          case Ok(votersInclude) =>
            Ok(Parsed(included, Elements(excluded), votersInclude, Elements(votersExclude)))
  }

  /** Only a positive self-stake becomes a vote, for the candidate itself. */
  function SelfVotes(included: seq<Candidate>): seq<Voter> {
    if included == [] then [] else
      var c := included[|included| - 1];
      SelfVotes(included[..|included| - 1])
      + (if c.value == 0 then [] else [Entry(c.account, Vote(c.value, [c.account]))])
  }

  /** The candidate list after stages 1 and 2. */
  function EditCandidates(candidates: seq<Candidate>, p: Parsed): seq<Candidate> {
    PutAll(Retain(candidates, p.excluded), p.included)
  }

  /** The voter list after stages 2 and 3. */
  function Remaining(voters: seq<Voter>, p: Parsed): seq<Voter> {
    Retain(PutAll(voters, SelfVotes(p.included)), p.votersExclude)
  }

  /** The voter list after stage 4. */
  function EditVoters(voters: seq<Voter>, p: Parsed): seq<Voter> {
    var list := Remaining(voters, p);
    OverlayAll(list, IndexMap(list), p.votersInclude)
  }

  /** Candidates and voters after stage 2, or the first unreadable address. */
  function WithCandidates(parse: Parser, includes: seq<CandidateInclude>, candidates: seq<Candidate>, voters: seq<Voter>)
    : Result<(seq<Candidate>, seq<Voter>), OverrideError>
  {
    match Traverse(CandidateReader(parse), includes)
    case Err(e) => Err(e)
    case Ok(list) => Ok((PutAll(candidates, list), PutAll(voters, SelfVotes(list))))
  }

  // ---- the in-place edits ----

  method RetainInPlace<T>(list: seq<Entry<T>>, excluded: set<Account>) returns (r: seq<Entry<T>>)
    ensures r == Retain(list, excluded)
  {
    r := [];
    for i := 0 to |list|
      invariant r + Retain(list[i..], excluded) == Retain(list, excluded)
    {
      RetainStep(list, excluded, i, r);
      if list[i].account !in excluded {
        r := r + [list[i]];
      }
    }
    assert list[|list|..] == [];
  }

  lemma {:induction false} RetainStep<T>(list: seq<Entry<T>>, excluded: set<Account>, i: nat, r: seq<Entry<T>>)
    requires i < |list|
    ensures r + Retain(list[i..], excluded)
         == (if list[i].account in excluded then r else r + [list[i]]) + Retain(list[i + 1..], excluded)
  {
    var tail, rest := list[i..], Retain(list[i + 1..], excluded);
    assert tail[0] == list[i] && tail[1..] == list[i + 1..];
    Associative(r, [list[i]], rest);
    assert [] + rest == rest;
  }

  method Find<T>(list: seq<Entry<T>>, a: Account) returns (i: nat)
    ensures i == First(list, a)
  {
    i := 0;
    while i < |list| && list[i].account != a
      invariant i <= |list|
      invariant forall j :: 0 <= j < i ==> list[j].account != a
    {
      i := i + 1;
    }
  }

  lemma {:induction false} TraverseStep<A, B, E>(read: A -> Result<B, E>, list: seq<A>, i: nat)
    requires i < |list| && Traverse(read, list[..i]).Ok?
    ensures Traverse(read, list[..i + 1])
         == match read(list[i]) case Err(e) => Err(e) case Ok(b) => Ok(Traverse(read, list[..i]).value + [b])
  {
    assert list[..i + 1][..i] == list[..i];
  }

  lemma {:induction false} TraverseFails<A, B, E>(read: A -> Result<B, E>, list: seq<A>, i: nat)
    requires i <= |list| && Traverse(read, list[..i]).Err?
    ensures Traverse(read, list) == Traverse(read, list[..i])
    decreases |list| - i
  {
    if i == |list| {
      assert list[..i] == list;
    } else {
      assert list[..i + 1][..i] == list[..i];
      TraverseFails(read, list, i + 1);
    }
  }

  method ReadAll<A, B, E>(read: A -> Result<B, E>, list: seq<A>) returns (r: Result<seq<B>, E>)
    ensures r == Traverse(read, list)
  {
    var done: seq<B> := [];
    for i := 0 to |list|
      invariant Traverse(read, list[..i]) == Ok(done)
    {
      TraverseStep(read, list, i);
      match read(list[i]) {
        case Err(e) =>
          TraverseFails(read, list, i + 1);
          return Err(e);
        case Ok(b) => done := done + [b];
      }
    }
    assert list[..|list|] == list;
    r := Ok(done);
  }

  /** Stage 2: register each included candidate and cast its self-vote. */
  method IncludeCandidates(
    parse: Parser, includes: seq<CandidateInclude>, candidates: seq<Candidate>, voters: seq<Voter>)
    returns (r: Result<(seq<Candidate>, seq<Voter>), OverrideError>)
    ensures r == WithCandidates(parse, includes, candidates, voters)
  {
    var cs, vs := candidates, voters;
    ghost var list: seq<Candidate> := [];
    for i := 0 to |includes|
      invariant IncludedSoFar(parse, includes[..i], candidates, voters, list, cs, vs)
    {
      var (address, selfStake) := Parts(includes[i]);
      var account := parse(address);
      if account.None? {
        UnreadableInclude(parse, includes, i, list);
        return Err(InvalidCandidateInclude(address));
      }
      var c := Entry(account.value, selfStake);
      IncludeOne(parse, includes, i, candidates, voters, list, cs, vs);
      list := list + [c];
      cs := PutInPlace(cs, c);
      if selfStake != 0 {
        vs := PutInPlace(vs, Entry(c.account, Vote(selfStake, [c.account])));
      }
    }
    assert includes[..|includes|] == includes;
    r := Ok((cs, vs));
  }

  method PutInPlace<T>(list: seq<Entry<T>>, e: Entry<T>) returns (r: seq<Entry<T>>)
    ensures r == Put(list, e)
  {
    var at := Find(list, e.account);
    r := if at < |list| then list[at := e] else list + [e];
  }

  /** These inclusions were read as `list` and applied. */
  ghost predicate IncludedSoFar(parse: Parser, includes: seq<CandidateInclude>, candidates: seq<Candidate>, voters: seq<Voter>,
                                list: seq<Candidate>, cs: seq<Candidate>, vs: seq<Voter>)
  {
    && Traverse(CandidateReader(parse), includes) == Ok(list)
    && cs == PutAll(candidates, list) && vs == PutAll(voters, SelfVotes(list))
  }

  lemma {:induction false} UnreadableInclude(parse: Parser, includes: seq<CandidateInclude>, i: nat, list: seq<Candidate>)
    requires i < |includes| && Traverse(CandidateReader(parse), includes[..i]) == Ok(list)
    requires parse(Parts(includes[i]).0).None?
    ensures Traverse(CandidateReader(parse), includes) == Err(InvalidCandidateInclude(Parts(includes[i]).0))
  {
    TraverseStep(CandidateReader(parse), includes, i);
    TraverseFails(CandidateReader(parse), includes, i + 1);
  }

  lemma {:induction false} IncludeOne(parse: Parser, includes: seq<CandidateInclude>, i: nat, candidates: seq<Candidate>,
                                      voters: seq<Voter>, list: seq<Candidate>, cs: seq<Candidate>, vs: seq<Voter>)
    requires i < |includes| && IncludedSoFar(parse, includes[..i], candidates, voters, list, cs, vs)
    requires parse(Parts(includes[i]).0).Some?
    ensures var c := Entry(parse(Parts(includes[i]).0).value, Parts(includes[i]).1);
            IncludedSoFar(parse, includes[..i + 1], candidates, voters, list + [c], Put(cs, c),
                          if c.value == 0 then vs else Put(vs, Entry(c.account, Vote(c.value, [c.account]))))
  {
    var c := Entry(parse(Parts(includes[i]).0).value, Parts(includes[i]).1);
    TraverseStep(CandidateReader(parse), includes, i);
    PutLast(candidates, list, c);
    SelfVoteLast(voters, list, c);
  }

  lemma {:induction false} PutLast<T>(list: seq<Entry<T>>, edits: seq<Entry<T>>, e: Entry<T>)
    ensures PutAll(list, edits + [e]) == Put(PutAll(list, edits), e)
  {
    assert (edits + [e])[..|edits|] == edits;
  }

  lemma {:induction false} SelfVoteLast(voters: seq<Voter>, included: seq<Candidate>, c: Candidate)
    ensures PutAll(voters, SelfVotes(included + [c]))
         == if c.value == 0 then PutAll(voters, SelfVotes(included))
            else Put(PutAll(voters, SelfVotes(included)), Entry(c.account, Vote(c.value, [c.account])))
  {
    assert (included + [c])[..|included|] == included;
    if c.value == 0 {
      assert SelfVotes(included + [c]) == SelfVotes(included);
    } else {
      PutLast(voters, SelfVotes(included), Entry(c.account, Vote(c.value, [c.account])));
    }
  }

  /** Stage 4: overwrite or append each included voter. */
  method IncludeVoters(parse: Parser, includes: seq<VoterInclude>, voters: seq<Voter>)
    returns (r: Result<seq<Voter>, OverrideError>)
    ensures match Traverse(VoterReader(parse), includes)
            case Err(e) => r == Err(e)
            case Ok(list) => r == Ok(OverlayAll(voters, IndexMap(voters), list))
  {
    var vs := voters;
    var index := IndexMap(voters);
    ghost var list: seq<Voter> := [];
    for i := 0 to |includes|
      invariant Traverse(VoterReader(parse), includes[..i]) == Ok(list)
      invariant vs == OverlayAll(voters, index, list)
    {
      TraverseStep(VoterReader(parse), includes, i);
      var entry := VoterReader(parse)(includes[i]);
      if entry.Err? {
        TraverseFails(VoterReader(parse), includes, i + 1);
        return Err(entry.error);
      }
      var v := entry.value;
      assert (list + [v])[..|list|] == list;
      list := list + [v];
      vs := if v.account in index then vs[index[v.account] := v] else vs + [v];
    }
    assert includes[..|includes|] == includes;
    r := Ok(vs);
  }

  /** The whole edit: it fails with the first unreadable address, or yields the edited lists. */
  method ApplyOverrides(parse: Parser, candidates: seq<Candidate>, voters: seq<Voter>, o: Overrides)
    returns (r: Result<(seq<Candidate>, seq<Voter>), OverrideError>)
    ensures match Parse(parse, o)
            case Err(e) => r == Err(e)
            case Ok(p) => r == Ok((EditCandidates(candidates, p), EditVoters(voters, p)))
  {
    var excluded := ReadAll(AddressReader(parse, t => InvalidCandidateExclude(t)), o.candidatesExclude);
    if excluded.Err? {
      return Err(excluded.error);
    }
    var cs := RetainInPlace(candidates, Elements(excluded.value));
    var included := IncludeCandidates(parse, o.candidatesInclude, cs, voters);
    if included.Err? {
      return Err(included.error);
    }
    var votersExclude := ReadAll(AddressReader(parse, t => InvalidVoterExclude(t)), o.votersExclude);
    if votersExclude.Err? {
      return Err(votersExclude.error);
    }
    var vs := RetainInPlace(included.value.1, Elements(votersExclude.value));
    var all := IncludeVoters(parse, o.votersInclude, vs);
    if all.Err? {
      return Err(all.error);
    }
    r := Ok((included.value.0, all.value));
  }

  // ---- meaning of the edits, account by account ----

  function LastOf<T>(edits: seq<Entry<T>>, a: Account): Option<T> {
    if edits == [] then None
    else if edits[|edits| - 1].account == a then Some(edits[|edits| - 1].value)
    else LastOf(edits[..|edits| - 1], a)
  }

  lemma {:induction false} FirstIs<T>(list: seq<Entry<T>>, a: Account, i: nat)
    requires i <= |list| && (forall j :: 0 <= j < i ==> list[j].account != a)
    requires i < |list| ==> list[i].account == a
    ensures First(list, a) == i
  {
  }

  lemma {:induction false} AtPut<T>(list: seq<Entry<T>>, e: Entry<T>, a: Account)
    ensures At(Put(list, e), a) == if a == e.account then Some(e.value) else At(list, a)
  {
    FirstIs(Put(list, e), a, if a == e.account || First(list, a) < |list| then First(list, a) else |Put(list, e)|);
  }

  lemma {:induction false} AtPutAll<T>(list: seq<Entry<T>>, edits: seq<Entry<T>>, a: Account)
    ensures At(PutAll(list, edits), a) == if LastOf(edits, a).Some? then LastOf(edits, a) else At(list, a)
  {
    if edits != [] {
      AtPutAll(list, edits[..|edits| - 1], a);
      AtPut(PutAll(list, edits[..|edits| - 1]), edits[|edits| - 1], a);
    }
  }

  lemma {:induction false} AtRetain<T>(list: seq<Entry<T>>, excluded: set<Account>, a: Account)
    ensures At(Retain(list, excluded), a) == if a in excluded then None else At(list, a)
  {
    if list != [] {
      AtRetain(list[1..], excluded, a);
      AtAppend([list[0]], list[1..], a);
      assert list == [list[0]] + list[1..];
      AtAppend(if list[0].account in excluded then [] else [list[0]], Retain(list[1..], excluded), a);
    }
  }

  lemma {:induction false} UniqueRetain<T>(list: seq<Entry<T>>, excluded: set<Account>)
    requires Unique(list)
    ensures Unique(Retain(list, excluded))
    ensures forall e :: e in Retain(list, excluded) ==> e in list
  {
    if list != [] {
      UniqueRetain(list[1..], excluded);
      forall e | e in Retain(list[1..], excluded) ensures e.account != list[0].account {
        assert e in list[1..];
      }
    }
  }

  lemma {:induction false} UniquePutAll<T>(list: seq<Entry<T>>, edits: seq<Entry<T>>)
    requires Unique(list)
    ensures Unique(PutAll(list, edits))
  {
    if edits != [] {
      UniquePutAll(list, edits[..|edits| - 1]);
    }
  }

  lemma {:induction false} AtAppend<T>(list: seq<Entry<T>>, more: seq<Entry<T>>, a: Account)
    ensures At(list + more, a) == if At(list, a).Some? then At(list, a) else At(more, a)
  {
    var i := First(list, a);
    FirstIs(list + more, a, if i < |list| then i else |list| + First(more, a));
  }

  /** The edits that append: those of accounts without an entry. */
  function News<T>(list: seq<Entry<T>>, edits: seq<Entry<T>>): seq<Entry<T>> {
    if edits == [] then [] else
      var e := edits[|edits| - 1];
      News(list, edits[..|edits| - 1]) + (if Mentions(list, e.account) then [] else [e])
  }

  /** An overlay overwrites the old entries with the last edit of their account and appends the rest. */
  lemma {:induction false} OverlayShape<T>(list: seq<Entry<T>>, edits: seq<Entry<T>>)
    requires Unique(list)
    ensures var r := OverlayAll(list, IndexMap(list), edits);
            && r[|list|..] == News(list, edits)
            && forall i :: 0 <= i < |list| ==>
                 && r[i].account == list[i].account
                 && Some(r[i].value) == if LastOf(edits, list[i].account).Some? then LastOf(edits, list[i].account)
                                        else Some(list[i].value)
  {
    if edits != [] {
      var init, e := edits[..|edits| - 1], edits[|edits| - 1];
      OverlayShape(list, init);
      var before, after := OverlayAll(list, IndexMap(list), init), OverlayAll(list, IndexMap(list), edits);
      if Mentions(list, e.account) {
        assert after[|list|..] == before[|list|..];
      } else {
        assert after[|list|..] == before[|list|..] + [e];
      }
    }
  }

  lemma {:induction false} AtNews<T>(list: seq<Entry<T>>, edits: seq<Entry<T>>, a: Account)
    requires !Mentions(list, a)
    ensures At(News(list, edits), a) == At(edits, a)
  {
    if edits != [] {
      var init, e := edits[..|edits| - 1], edits[|edits| - 1];
      AtNews(list, init, a);
      assert edits == init + [e];
      AtAppend(init, [e], a);
      AtAppend(News(list, init), if Mentions(list, e.account) then [] else [e], a);
    }
  }

  /** After an overlay, an old account has its last edit, a new account its first. */
  lemma {:induction false} AtOverlay<T>(list: seq<Entry<T>>, edits: seq<Entry<T>>, a: Account)
    requires Unique(list)
    ensures At(OverlayAll(list, IndexMap(list), edits), a)
         == if At(list, a).None? then At(edits, a)
            else if LastOf(edits, a).Some? then LastOf(edits, a) else At(list, a)
  {
    var r := OverlayAll(list, IndexMap(list), edits);
    OverlayShape(list, edits);
    assert r == r[..|list|] + News(list, edits);
    AtAppend(r[..|list|], News(list, edits), a);
    FirstIs(r[..|list|], a, First(list, a));
    if At(list, a).None? {
      AtNews(list, edits, a);
    }
  }

  lemma {:induction false} OnceIsFirstAndLast<T>(edits: seq<Entry<T>>, a: Account)
    requires Unique(edits)
    ensures At(edits, a) == LastOf(edits, a)
  {
    if edits != [] {
      var init, e := edits[..|edits| - 1], edits[|edits| - 1];
      OnceIsFirstAndLast(init, a);
      assert edits == init + [e];
      AtAppend(init, [e], a);
    }
  }

  /** Every account edited twice already has an entry. */
  ghost predicate NoNewTwice<T>(list: seq<Entry<T>>, edits: seq<Entry<T>>) {
    forall i, j :: 0 <= i < j < |edits| && edits[i].account == edits[j].account ==> Mentions(list, edits[i].account)
  }

  lemma {:induction false} NewsMentions<T>(list: seq<Entry<T>>, edits: seq<Entry<T>>, a: Account)
    ensures Mentions(News(list, edits), a) <==> Mentions(edits, a) && !Mentions(list, a)
  {
    if edits != [] {
      var init, e := edits[..|edits| - 1], edits[|edits| - 1];
      NewsMentions(list, init, a);
      assert edits == init + [e];
      MentionsAppend(init, [e], a);
      MentionsAppend(News(list, init), if Mentions(list, e.account) then [] else [e], a);
      assert Mentions([e], a) <==> e.account == a by {
        assert [e][0] == e;
      }
    }
  }

  lemma {:induction false} MentionsAppend<T>(x: seq<Entry<T>>, y: seq<Entry<T>>, a: Account)
    ensures Mentions(x + y, a) <==> Mentions(x, a) || Mentions(y, a)
  {
    var s := x + y;
    if i :| 0 <= i < |x| && x[i].account == a {
      assert s[i].account == a;
    }
    if i :| 0 <= i < |y| && y[i].account == a {
      assert s[|x| + i].account == a;
    }
  }

  lemma {:induction false} UniqueAppend<T>(x: seq<Entry<T>>, y: seq<Entry<T>>)
    requires Unique(x) && forall e :: e in y ==> !Mentions(x, e.account)
    ensures Unique(x + y) <==> Unique(y)
  {
    var s := x + y;
    assert forall i :: 0 <= i < |y| ==> s[|x| + i] == y[i];
    if Unique(s) {
      forall i, j | 0 <= i < j < |y| ensures y[i].account != y[j].account {
        assert s[|x| + i].account != s[|x| + j].account;
      }
    }
  }

  lemma {:induction false} UniqueNews<T>(list: seq<Entry<T>>, edits: seq<Entry<T>>)
    ensures Unique(News(list, edits)) <==> NoNewTwice(list, edits)
  {
    if edits != [] {
      var init, e := edits[..|edits| - 1], edits[|edits| - 1];
      UniqueNews(list, init);
      assert edits == init + [e];
      NewsMentions(list, init, e.account);
      var news := News(list, init);
      if !Mentions(list, e.account) {
        assert Unique(news + [e]) <==> Unique(news) && !Mentions(news, e.account) by {
          UniqueSnoc(news, e);
        }
      } else {
        assert news + [] == news;
      }
      NoNewTwiceSnoc(list, init, e);
    }
  }

  lemma {:induction false} UniqueSnoc<T>(list: seq<Entry<T>>, e: Entry<T>)
    ensures Unique(list + [e]) <==> Unique(list) && !Mentions(list, e.account)
  {
    var s := list + [e];
    assert s[|list|] == e && forall i :: 0 <= i < |list| ==> s[i] == list[i];
    if Unique(s) {
      assert forall i :: 0 <= i < |list| ==> s[i].account != s[|list|].account;
    }
  }

  lemma {:induction false} NoNewTwiceSnoc<T>(list: seq<Entry<T>>, edits: seq<Entry<T>>, e: Entry<T>)
    ensures NoNewTwice(list, edits + [e])
       <==> NoNewTwice(list, edits) && (Mentions(edits, e.account) ==> Mentions(list, e.account))
  {
    var s := edits + [e];
    assert s[|edits|] == e && forall i :: 0 <= i < |edits| ==> s[i] == edits[i];
    if NoNewTwice(list, s) && Mentions(edits, e.account) {
      var i :| 0 <= i < |edits| && edits[i].account == e.account;
      assert s[i].account == s[|edits|].account;
    }
    if NoNewTwice(list, s) {
      forall i, j | 0 <= i < j < |edits| && edits[i].account == edits[j].account ensures Mentions(list, edits[i].account) {
        assert s[i].account == s[j].account;
      }
    }
  }

  lemma {:induction false} SameAccounts<T>(x: seq<Entry<T>>, y: seq<Entry<T>>, a: Account)
    requires |x| == |y| && forall i :: 0 <= i < |x| ==> x[i].account == y[i].account
    ensures Mentions(x, a) <==> Mentions(y, a)
    ensures Unique(x) <==> Unique(y)
  {
  }

  lemma {:induction false} NewsAreNew<T>(list: seq<Entry<T>>, edits: seq<Entry<T>>, e: Entry<T>)
    requires e in News(list, edits)
    ensures !Mentions(list, e.account)
  {
    var news := News(list, edits);
    var i :| 0 <= i < |news| && news[i] == e;
    NewsMentions(list, edits, e.account);
  }

  lemma {:induction false} UniqueOverlay<T>(list: seq<Entry<T>>, edits: seq<Entry<T>>)
    requires Unique(list)
    ensures Unique(OverlayAll(list, IndexMap(list), edits)) <==> NoNewTwice(list, edits)
  {
    OverlayShape(list, edits);
    var r := OverlayAll(list, IndexMap(list), edits);
    var kept := r[..|list|];
    assert r == kept + News(list, edits);
    forall e | e in News(list, edits) ensures !Mentions(kept, e.account) {
      NewsAreNew(list, edits, e);
      SameAccounts(list, kept, e.account);
    }
    SameAccounts(list, kept, 0);
    UniqueAppend(kept, News(list, edits));
    UniqueNews(list, edits);
  }

  // ---- the main results ----

  /** Candidates: included beats excluded beats fetched, for every account and any lists. */
  lemma {:induction false} CandidatePrecedence(candidates: seq<Candidate>, p: Parsed, a: Account)
    ensures At(EditCandidates(candidates, p), a)
         == if LastOf(p.included, a).Some? then LastOf(p.included, a)
            else if a in p.excluded then None
            else At(candidates, a)
  {
    AtRetain(candidates, p.excluded, a);
    AtPutAll(Retain(candidates, p.excluded), p.included, a);
  }

  /** What an account has before voters are included: excluded beats self-vote beats fetched. */
  function BeforeIncludes(voters: seq<Voter>, p: Parsed, a: Account): Option<Vote> {
    if a in p.votersExclude then None
    else if LastOf(SelfVotes(p.included), a).Some? then LastOf(SelfVotes(p.included), a)
    else At(voters, a)
  }

  lemma {:induction false} RemainingVoters(voters: seq<Voter>, p: Parsed, a: Account)
    requires Unique(voters)
    ensures Unique(Remaining(voters, p)) && At(Remaining(voters, p), a) == BeforeIncludes(voters, p, a)
  {
    AtPutAll(voters, SelfVotes(p.included), a);
    AtRetain(PutAll(voters, SelfVotes(p.included)), p.votersExclude, a);
    UniquePutAll(voters, SelfVotes(p.included));
    UniqueRetain(PutAll(voters, SelfVotes(p.included)), p.votersExclude);
  }

  /**
   Voters: included beats excluded beats candidate self-vote beats fetched. Of several inclusions
   of one account the last counts if the account still had an entry, the first otherwise.
   */
  lemma {:induction false} VoterPrecedence(voters: seq<Voter>, p: Parsed, a: Account)
    requires Unique(voters)
    ensures At(EditVoters(voters, p), a)
         == if BeforeIncludes(voters, p, a).None? then At(p.votersInclude, a)
            else if LastOf(p.votersInclude, a).Some? then LastOf(p.votersInclude, a)
            else BeforeIncludes(voters, p, a)
  {
    RemainingVoters(voters, p, a);
    AtOverlay(Remaining(voters, p), p.votersInclude, a);
  }

  /** The edited voters are unique exactly when no account without an entry is included twice. */
  lemma {:induction false} EditedVotersUnique(voters: seq<Voter>, p: Parsed)
    requires Unique(voters)
    ensures Unique(EditVoters(voters, p)) <==> NoNewTwice(Remaining(voters, p), p.votersInclude)
  {
    RemainingVoters(voters, p, 0);
    UniqueOverlay(Remaining(voters, p), p.votersInclude);
  }

  /** Applying the same overrides again changes no account's entry, given distinct inclusions. */
  lemma {:induction false} ApplyingTwiceIsApplyingOnce(
    candidates: seq<Candidate>, voters: seq<Voter>, p: Parsed, a: Account)
    requires Unique(voters) && Unique(p.votersInclude)
    ensures At(EditCandidates(EditCandidates(candidates, p), p), a) == At(EditCandidates(candidates, p), a)
    ensures Unique(EditVoters(voters, p))
    ensures At(EditVoters(EditVoters(voters, p), p), a) == At(EditVoters(voters, p), a)
  {
    CandidatePrecedence(candidates, p, a);
    CandidatePrecedence(EditCandidates(candidates, p), p, a);
    EditedVotersUnique(voters, p);
    OnceIsFirstAndLast(p.votersInclude, a);
    VoterPrecedence(voters, p, a);
    VoterPrecedence(EditVoters(voters, p), p, a);
  }

  /** The failing side: including an account twice that has no entry leaves it with two. */
  lemma {:induction false} DoubleInclusion()
    ensures var v := Entry(7, Vote(1, [3]));
            !Unique(EditVoters([], Parsed([], {}, [v, v], {})))
  {
    var v := Entry(7, Vote(1, [3]));
    var p := Parsed([], {}, [v, v], {});
    EditedVotersUnique([], p);
    assert Remaining([], p) == [];
    assert p.votersInclude[0].account == p.votersInclude[1].account && !Mentions(Remaining([], p), 7);
  }
}
