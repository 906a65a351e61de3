/** What the overrides file says, read off its own text: no parsed form, no intermediate list. */
module OverridesLaws {
  import opened Common
  import opened Overrides

  // ---- reading ----

  /** `list[i]` is the first element that cannot be read. */
  ghost predicate FirstBad<A, B, E>(read: A -> Result<B, E>, list: seq<A>, i: nat) {
    i < |list| && read(list[i]).Err? && forall j :: 0 <= j < i ==> read(list[j]).Ok?
  }

  lemma {:induction false} TraverseReadsAll<A, B, E>(read: A -> Result<B, E>, list: seq<A>)
    ensures Traverse(read, list).Ok? <==> forall i :: 0 <= i < |list| ==> read(list[i]).Ok?
    ensures Traverse(read, list).Ok? ==>
      var r := Traverse(read, list).value;
      |r| == |list| && forall i :: 0 <= i < |list| ==> read(list[i]) == Ok(r[i])
    ensures Traverse(read, list).Err? ==>
      exists i: nat :: FirstBad(read, list, i) && read(list[i]) == Err(Traverse(read, list).error)
  {
    if list != [] {
      var init, n := list[..|list| - 1], |list| - 1;
      TraverseReadsAll(read, init);
      assert forall i :: 0 <= i < n ==> init[i] == list[i];
      if Traverse(read, init).Err? {
        var i: nat :| FirstBad(read, init, i) && read(init[i]) == Err(Traverse(read, init).error);
        assert FirstBad(read, list, i);
      } else if read(list[n]).Err? {
        assert FirstBad(read, list, n);
      }
    }
  }

  /** Every address of the list can be read. */
  ghost predicate AllRead(parse: Parser, texts: seq<string>) {
    forall i :: 0 <= i < |texts| ==> parse(texts[i]).Some?
  }

  /** `text` is the first address of the list that cannot be read. */
  ghost predicate BadAddress(parse: Parser, texts: seq<string>, text: string) {
    exists i :: 0 <= i < |texts| && texts[i] == text && parse(text).None? && forall j :: 0 <= j < i ==> parse(texts[j]).Some?
  }

  lemma {:induction false} AddressesRead(parse: Parser, blame: string -> OverrideError, texts: seq<string>)
    ensures var r := Traverse(AddressReader(parse, blame), texts);
            && (r.Ok? <==> AllRead(parse, texts))
            && (r.Ok? ==> |r.value| == |texts| && forall i :: 0 <= i < |texts| ==> parse(texts[i]) == Some(r.value[i]))
            && (r.Err? ==> exists text :: BadAddress(parse, texts, text) && r.error == blame(text))
  {
    var read := AddressReader(parse, blame);
    TraverseReadsAll(read, texts);
    var r := Traverse(read, texts);
    if r.Err? {
      var i: nat :| FirstBad(read, texts, i) && read(texts[i]) == Err(r.error);
      assert BadAddress(parse, texts, texts[i]);
    } else {
      assert forall i :: 0 <= i < |texts| ==> read(texts[i]) == Ok(r.value[i]);
    }
  }

  /** These are the accounts of the addresses. */
  ghost predicate AccountsOf(parse: Parser, texts: seq<string>, accounts: set<Account>) {
    forall a :: a in accounts <==> exists i :: 0 <= i < |texts| && parse(texts[i]) == Some(a)
  }

  lemma {:induction false} ExcludedAreRead(parse: Parser, texts: seq<string>, accounts: seq<Account>)
    requires |accounts| == |texts| && forall i :: 0 <= i < |texts| ==> parse(texts[i]) == Some(accounts[i])
    ensures AccountsOf(parse, texts, Elements(accounts))
  {
    forall a ensures a in Elements(accounts) <==> exists i :: 0 <= i < |texts| && parse(texts[i]) == Some(a) {
      if a in Elements(accounts) {
        var i :| 0 <= i < |accounts| && accounts[i] == a;
        assert parse(texts[i]) == Some(a);
      }
    }
  }

  // ---- the four parts ----

  /** An included candidate is registered with its self-stake; a bare address has none. */
  ghost predicate CandidateRead(parse: Parser, c: CandidateInclude, e: Candidate) {
    && parse(c.address) == Some(e.account)
    && e.value == if c.Address? then 0 else c.selfStake
  }

  ghost predicate VoterRead(parse: Parser, v: VoterInclude, e: Voter) {
    && parse(v.address) == Some(e.account) && e.value.stake == v.stake
    && |e.value.targets| == |v.targets|
    && forall i :: 0 <= i < |v.targets| ==> parse(v.targets[i]) == Some(e.value.targets[i])
  }

  ghost predicate VoterReadable(parse: Parser, v: VoterInclude) {
    parse(v.address).Some? && AllRead(parse, v.targets)
  }

  function AddressesOf(includes: seq<CandidateInclude>): seq<string> {
    seq(|includes|, i requires 0 <= i < |includes| => includes[i].address)
  }

  /** The first voter that cannot be read, and why: its own address, or its first bad target. */
  ghost predicate BadVoter(parse: Parser, voters: seq<VoterInclude>, i: nat, e: OverrideError) {
    && i < |voters| && (forall j :: 0 <= j < i ==> VoterReadable(parse, voters[j]))
    && if parse(voters[i].address).None? then e == InvalidVoterInclude(voters[i].address)
       else e.InvalidVoterTarget? && BadAddress(parse, voters[i].targets, e.text)
  }

  lemma {:induction false} OneCandidateRead(parse: Parser, c: CandidateInclude)
    ensures var r := CandidateReader(parse)(c);
            && (r.Ok? <==> parse(c.address).Some?)
            && (r.Ok? ==> CandidateRead(parse, c, r.value))
            && (r.Err? ==> r.error == InvalidCandidateInclude(c.address))
  {
    assert Parts(c) == (c.address, if c.Address? then 0 else c.selfStake);
  }

  lemma {:induction false} CandidatesRead(parse: Parser, includes: seq<CandidateInclude>)
    ensures var r := Traverse(CandidateReader(parse), includes);
            && (r.Ok? <==> AllRead(parse, AddressesOf(includes)))
            && (r.Ok? ==>
                  |r.value| == |includes| && forall i :: 0 <= i < |includes| ==> CandidateRead(parse, includes[i], r.value[i]))
            && (r.Err? ==>
                  exists text :: BadAddress(parse, AddressesOf(includes), text) && r.error == InvalidCandidateInclude(text))
  {
    var read := CandidateReader(parse);
    TraverseReadsAll(read, includes);
    var r, texts := Traverse(read, includes), AddressesOf(includes);
    forall i | 0 <= i < |includes|
      ensures read(includes[i]).Ok? <==> parse(texts[i]).Some?
      ensures read(includes[i]).Ok? ==> CandidateRead(parse, includes[i], read(includes[i]).value)
    {
      OneCandidateRead(parse, includes[i]);
    }
    if r.Err? {
      var i: nat :| FirstBad(read, includes, i) && read(includes[i]) == Err(r.error);
      assert BadAddress(parse, texts, texts[i]);
    } else {
      forall i | 0 <= i < |includes| ensures CandidateRead(parse, includes[i], r.value[i]) {
        assert read(includes[i]) == Ok(r.value[i]);
      }
    }
  }

  lemma {:induction false} OneVoterRead(parse: Parser, v: VoterInclude)
    ensures var r := VoterReader(parse)(v);
            && (r.Ok? <==> VoterReadable(parse, v))
            && (r.Ok? ==> VoterRead(parse, v, r.value))
            && (r.Err? ==> BadVoter(parse, [v], 0, r.error))
  {
    AddressesRead(parse, t => InvalidVoterTarget(t), v.targets);
  }

  lemma {:induction false} VotersRead(parse: Parser, voters: seq<VoterInclude>)
    ensures var r := Traverse(VoterReader(parse), voters);
            && (r.Ok? <==> forall i :: 0 <= i < |voters| ==> VoterReadable(parse, voters[i]))
            && (r.Ok? ==> |r.value| == |voters| && forall i :: 0 <= i < |voters| ==> VoterRead(parse, voters[i], r.value[i]))
            && (r.Err? ==> exists i: nat :: BadVoter(parse, voters, i, r.error))
  {
    var read := VoterReader(parse);
    TraverseReadsAll(read, voters);
    var r := Traverse(read, voters);
    forall i | 0 <= i < |voters|
      ensures read(voters[i]).Ok? <==> VoterReadable(parse, voters[i])
      ensures read(voters[i]).Ok? ==> VoterRead(parse, voters[i], read(voters[i]).value)
      ensures read(voters[i]).Err? ==> BadVoter(parse, [voters[i]], 0, read(voters[i]).error)
    {
      OneVoterRead(parse, voters[i]);
    }
    if r.Err? {
      var i: nat :| FirstBad(read, voters, i) && read(voters[i]) == Err(r.error);
      assert BadVoter(parse, voters, i, r.error);
    } else {
      forall i | 0 <= i < |voters| ensures VoterRead(parse, voters[i], r.value[i]) {
        assert read(voters[i]) == Ok(r.value[i]);
      }
    }
  }

  // ---- the whole file ----

  ghost predicate VotersReadable(parse: Parser, voters: seq<VoterInclude>) {
    forall i :: 0 <= i < |voters| ==> VoterReadable(parse, voters[i])
  }

  /** The parsed overrides say what the file says. */
  ghost predicate Says(parse: Parser, o: Overrides, p: Parsed) {
    && AccountsOf(parse, o.candidatesExclude, p.excluded) && AccountsOf(parse, o.votersExclude, p.votersExclude)
    && |p.included| == |o.candidatesInclude|
    && (forall i :: 0 <= i < |p.included| ==> CandidateRead(parse, o.candidatesInclude[i], p.included[i]))
    && |p.votersInclude| == |o.votersInclude|
    && forall i :: 0 <= i < |p.votersInclude| ==> VoterRead(parse, o.votersInclude[i], p.votersInclude[i])
  }

  /** The first unreadable address, in the order of the stages. */
  ghost predicate Blames(parse: Parser, o: Overrides, e: OverrideError) {
    if !AllRead(parse, o.candidatesExclude)
    then exists text :: BadAddress(parse, o.candidatesExclude, text) && e == InvalidCandidateExclude(text)
    else if !AllRead(parse, AddressesOf(o.candidatesInclude))
    then exists text :: BadAddress(parse, AddressesOf(o.candidatesInclude), text) && e == InvalidCandidateInclude(text)
    else if !AllRead(parse, o.votersExclude)
    then exists text :: BadAddress(parse, o.votersExclude, text) && e == InvalidVoterExclude(text)
    else exists i: nat :: BadVoter(parse, o.votersInclude, i, e)
  }

  /**
   The overrides are applied exactly when every address in them can be read, and then as they
   say; otherwise the first unreadable address is reported, exclusions of candidates first, then
   inclusions of candidates, exclusions of voters, and inclusions of voters.
   */
  lemma {:induction false} ParseIsExact(parse: Parser, o: Overrides)
    ensures Parse(parse, o).Ok? <==>
      && AllRead(parse, o.candidatesExclude) && AllRead(parse, AddressesOf(o.candidatesInclude))
      && AllRead(parse, o.votersExclude) && VotersReadable(parse, o.votersInclude)
    ensures Parse(parse, o).Ok? ==> Says(parse, o, Parse(parse, o).value)
    ensures Parse(parse, o).Err? ==> Blames(parse, o, Parse(parse, o).error)
  {
    var excluded := Traverse(AddressReader(parse, t => InvalidCandidateExclude(t)), o.candidatesExclude);
    var votersExclude := Traverse(AddressReader(parse, t => InvalidVoterExclude(t)), o.votersExclude);
    AddressesRead(parse, t => InvalidCandidateExclude(t), o.candidatesExclude);
    CandidatesRead(parse, o.candidatesInclude);
    AddressesRead(parse, t => InvalidVoterExclude(t), o.votersExclude);
    VotersRead(parse, o.votersInclude);
    if Parse(parse, o).Ok? {
      ExcludedAreRead(parse, o.candidatesExclude, excluded.value);
      ExcludedAreRead(parse, o.votersExclude, votersExclude.value);
    }
  }

  // ---- the lists ----

  /** Retaining keeps the entries of the accounts not excluded, in order. */
  lemma {:induction false} RetainIsFilter<T>(list: seq<Entry<T>>, excluded: set<Account>)
    ensures Retain(list, excluded) == Those(list, (e: Entry<T>) => e.account !in excluded)
    decreases |list|
  {
    if list != [] {
      var init, e := list[..|list| - 1], list[|list| - 1];
      RetainIsFilter(init, excluded);
      RetainSnoc(init, e, excluded);
      assert list == init + [e];
    }
  }

  lemma {:induction false} RetainSnoc<T>(list: seq<Entry<T>>, e: Entry<T>, excluded: set<Account>)
    ensures Retain(list + [e], excluded) == Retain(list, excluded) + if e.account in excluded then [] else [e]
  {
    if list == [] {
      assert (list + [e])[1..] == [];
    } else {
      RetainSnoc(list[1..], e, excluded);
      assert (list + [e])[1..] == list[1..] + [e];
    }
  }

  /** One edit leaves every other entry in place; the account edited keeps its place or comes last. */
  lemma {:induction false} EditInPlace<T>(list: seq<Entry<T>>, e: Entry<T>)
    requires Unique(list)
    ensures var r := Put(list, e);
            && |r| == (if Mentions(list, e.account) then |list| else |list| + 1)
            && (forall i :: 0 <= i < |list| ==> r[i] == if list[i].account == e.account then e else list[i])
            && (!Mentions(list, e.account) ==> r[|list|] == e)
  {
  }

  /** Unlike the voters, the candidates stay unique whatever is included. */
  lemma {:induction false} EditedCandidatesUnique(candidates: seq<Candidate>, p: Parsed)
    requires Unique(candidates)
    ensures Unique(EditCandidates(candidates, p))
  {
    UniqueRetain(candidates, p.excluded);
    UniquePutAll(Retain(candidates, p.excluded), p.included);
  }

  /** The last inclusion of `a` with a positive self-stake. */
  ghost predicate LastStaked(included: seq<Candidate>, a: Account, i: nat) {
    && i < |included| && included[i].account == a && included[i].value > 0
    && forall j :: i < j < |included| && included[j].account == a ==> included[j].value == 0
  }

  lemma {:induction false} SelfVoteLast(init: seq<Candidate>, c: Candidate, a: Account)
    ensures LastOf(SelfVotes(init + [c]), a)
         == if c.account == a && c.value > 0 then Some(Vote(c.value, [a])) else LastOf(SelfVotes(init), a)
  {
    var included, votes := init + [c], SelfVotes(init);
    assert included[..|init|] == init;
    if c.value > 0 {
      assert (votes + [Entry(c.account, Vote(c.value, [c.account]))])[..|votes|] == votes;
    } else {
      assert SelfVotes(included) == votes;
    }
  }

  /** An account's self-vote comes from its last inclusion with a positive self-stake; without one there is none. */
  lemma {:induction false} SelfVoteOf(included: seq<Candidate>, a: Account)
    ensures forall i: nat :: LastStaked(included, a, i) ==>
      LastOf(SelfVotes(included), a) == Some(Vote(included[i].value, [a]))
    ensures (forall i :: 0 <= i < |included| && included[i].account == a ==> included[i].value == 0) ==>
      LastOf(SelfVotes(included), a) == None
  {
    if included != [] {
      var init, c := included[..|included| - 1], included[|included| - 1];
      assert included == init + [c] && forall i :: 0 <= i < |init| ==> init[i] == included[i];
      SelfVoteOf(init, a);
      SelfVoteLast(init, c, a);
      forall i: nat | LastStaked(included, a, i)
        ensures LastOf(SelfVotes(included), a) == Some(Vote(included[i].value, [a]))
      {
        if i < |init| {
          assert LastStaked(init, a, i);
        }
      }
    }
  }
}
