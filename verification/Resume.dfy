/**
 Resuming an incomplete submission: how the miner reads its own page bitmap, which pages it
 sends again, and why repeating that assembles the whole solution.
 */
module Resume {
  import opened Common
  import opened Scores
  import opened SubmissionLog
  import opened PageBatches
  import opened Submission

  /** Our submission as stored on chain. */
  datatype Metadata = Metadata(score: Score, bitmap: seq<bool>)

  datatype Existing = Done(score: Score) | Incomplete(score: Score, stored: set<nat>) | NotStarted

  function StoredPages(bitmap: seq<bool>): set<nat> {
    set i | 0 <= i < |bitmap| && bitmap[i]
  }

  function GetSubmission(metadata: Option<Metadata>, n: nat): Existing {
    if metadata.None? then NotStarted else
      var stored := StoredPages(metadata.value.bitmap);
      if |stored| == n then Done(metadata.value.score) else Incomplete(metadata.value.score, stored)
  }

  function MissingPages(stored: set<nat>, n: nat): seq<nat> {
    if n == 0 then [] else MissingPages(stored, n - 1) + if n - 1 in stored then [] else [n - 1]
  }

  lemma {:induction false} MissingAscend(stored: set<nat>, n: nat)
    ensures forall i, j :: 0 <= i < j < |MissingPages(stored, n)| ==> MissingPages(stored, n)[i] < MissingPages(stored, n)[j]
    ensures InRange(MissingPages(stored, n), n)
  {
    if n > 0 {
      MissingAscend(stored, n - 1);
    }
  }

  lemma {:induction false} MissingMembers(stored: set<nat>, n: nat, p: nat)
    ensures p in MissingPages(stored, n) <==> p < n && p !in stored
  {
    if n > 0 {
      MissingMembers(stored, n - 1, p);
    }
  }

  /** The missing pages are the complement of the stored ones, each listed once and in order. */
  lemma {:induction false} MissingIsComplement(stored: set<nat>, n: nat)
    ensures Elements(MissingPages(stored, n)) == Below(n) - stored
    ensures forall i, j :: 0 <= i < j < |MissingPages(stored, n)| ==> MissingPages(stored, n)[i] < MissingPages(stored, n)[j]
    ensures Distinct(MissingPages(stored, n)) && InRange(MissingPages(stored, n), n)
    ensures |MissingPages(stored, n)| == |Below(n) - stored|
  {
    MissingAscend(stored, n);
    forall p: nat ensures p in Elements(MissingPages(stored, n)) <==> p in Below(n) - stored {
      MissingMembers(stored, n, p);
    }
    DistinctCardinality(MissingPages(stored, n));
  }

  // ---- three tests for completeness ----

  /** Counting stored pages, testing every bit and finding nothing missing come to the same. */
  ghost predicate TestsAgree(bitmap: seq<bool>, n: nat) {
    && (|StoredPages(bitmap)| == n <==> AllTrue(bitmap))
    && (AllTrue(bitmap) <==> MissingPages(StoredPages(bitmap), n) == [])
  }

  lemma {:induction false} FullBitmap(bitmap: seq<bool>)
    ensures StoredPages(bitmap) <= Below(|bitmap|)
    ensures AllTrue(bitmap) <==> StoredPages(bitmap) == Below(|bitmap|)
    ensures |StoredPages(bitmap)| == |bitmap| <==> AllTrue(bitmap)
  {
    var all, stored := Below(|bitmap|), StoredPages(bitmap);
    forall i | 0 <= i < |bitmap| ensures bitmap[i] <==> i in stored {
    }
    assert |all - stored| == |all| - |stored|;
    if stored == all {
      assert forall i :: 0 <= i < |bitmap| ==> i in all;
    }
    NoRestIffSubset(all, stored);
  }

  lemma {:induction false} CompletenessTestsAgree(bitmap: seq<bool>)
    ensures TestsAgree(bitmap, |bitmap|)
  {
    FullBitmap(bitmap);
    MissingIsComplement(StoredPages(bitmap), |bitmap|);
    NoRestIffSubset(Below(|bitmap|), StoredPages(bitmap));
  }

  /** The tests agree on every bitmap of a given length exactly when that length is the number of pages. */
  lemma {:induction false} TestsAgreeIffFullLength(length: nat, n: nat)
    ensures (forall bitmap: seq<bool> :: |bitmap| == length ==> TestsAgree(bitmap, n)) <==> length == n
  {
    if length == n {
      forall bitmap: seq<bool> | |bitmap| == length ensures TestsAgree(bitmap, n) {
        CompletenessTestsAgree(bitmap);
      }
    } else {
      var full := seq(length, i => true);
      FullBitmap(full);
      assert !TestsAgree(full, n);
    }
  }

  // ---- a resume pass ----

  /** The bitmap of our submission and the pages behind it. */
  datatype OnChain = OnChain(bitmap: seq<bool>, content: map<nat, Payload>)

  function Missing(chain: OnChain): seq<nat> {
    MissingPages(StoredPages(chain.bitmap), |chain.bitmap|)
  }

  /** What is stored belongs to this solution. */
  ghost predicate PartOf(chain: OnChain, solution: seq<Payload>) {
    && |chain.bitmap| == |solution|
    && chain.content.Keys == StoredPages(chain.bitmap)
    && forall p :: p in chain.content ==> chain.content[p] == solution[p]
  }

  /** The chain stores some of the sheets sent to it. */
  function Store(chain: OnChain, sheets: seq<Sheet>, stored: set<nat>): OnChain {
    OnChain(
      seq(|chain.bitmap|, i requires 0 <= i < |chain.bitmap| => chain.bitmap[i] || i in stored),
      Written(chain.content, sheets, stored))
  }

  function Written(content: map<nat, Payload>, sheets: seq<Sheet>, stored: set<nat>): map<nat, Payload> {
    if sheets == [] then content else
      var init, last := sheets[..|sheets| - 1], sheets[|sheets| - 1];
      var before := Written(content, init, stored);
      if last.page in stored then before[last.page := last.payload] else before
  }

  /** One resume pass: the missing pages go out with the content they have in the cached solution. */
  ghost function ResumePass(solution: seq<Payload>, size: nat, a: OnChain, stored: set<nat>): Pass
    requires PartOf(a, solution)
  {
    MissingIsComplement(StoredPages(a.bitmap), |a.bitmap|);
    PassOf(SheetsFor(solution, Missing(a)), size, stored)
  }

  /** The chain goes from `a` to `b` by storing `stored`, all of it sent in this pass. */
  ghost predicate Resumes(solution: seq<Payload>, size: nat, a: OnChain, stored: set<nat>, b: OnChain) {
    && PartOf(a, solution)
    && stored <= PagesOf(ResumePass(solution, size, a, stored).sent)
    && b == Store(a, ResumePass(solution, size, a, stored).sent, stored)
  }

  lemma {:induction false} WrittenPages(content: map<nat, Payload>, sheets: seq<Sheet>, stored: set<nat>, solution: seq<Payload>)
    requires Originals(solution, sheets)
    requires forall p :: p in content ==> p < |solution| && content[p] == solution[p]
    ensures var w := Written(content, sheets, stored);
            && w.Keys == content.Keys + PagesOf(sheets) * stored
            && forall p :: p in w ==> p < |solution| && w[p] == solution[p]
  {
    if sheets == [] {
      assert PagesOf(sheets) == {};
    } else {
      var init, last := sheets[..|sheets| - 1], sheets[|sheets| - 1];
      WrittenPages(content, init, stored, solution);
      PagesAppend(init, [last]);
      assert sheets == init + [last] && PagesOf([last]) == {last.page} by {
        assert [last][0] == last;
      }
    }
  }

  lemma {:induction false} MarkedPages(chain: OnChain, sheets: seq<Sheet>, stored: set<nat>)
    requires stored <= Below(|chain.bitmap|)
    ensures StoredPages(Store(chain, sheets, stored).bitmap) == StoredPages(chain.bitmap) + stored
  {
    var marked := Store(chain, sheets, stored).bitmap;
    assert forall i :: 0 <= i < |marked| ==> (marked[i] <==> chain.bitmap[i] || i in stored);
  }

  lemma {:induction false} SentAreOriginals(solution: seq<Payload>, pages: seq<nat>, sent: seq<Sheet>)
    requires InRange(pages, |solution|) && sent <= SheetsFor(solution, pages)
    ensures Originals(solution, sent)
  {
    forall i | 0 <= i < |sent| ensures sent[i].page < |solution| && sent[i].payload == solution[sent[i].page] {
      assert sent[i] == SheetsFor(solution, pages)[i];
    }
  }

  lemma {:induction false} PassOver(solution: seq<Payload>, size: nat, pages: seq<nat>, stored: set<nat>)
    requires InRange(pages, |solution|)
    requires stored <= PagesOf(PassOf(SheetsFor(solution, pages), size, stored).sent)
    ensures Originals(solution, PassOf(SheetsFor(solution, pages), size, stored).sent)
    ensures stored <= Elements(pages)
    ensures PassOf(SheetsFor(solution, pages), size, stored).failed == {} <==> stored == Elements(pages)
  {
    var sheets := SheetsFor(solution, pages);
    SheetsForPages(solution, pages);
    PassAccounts(sheets, size, stored);
    PassCompleteIffStored(sheets, size, stored);
    PagesOfPrefix(PassOf(sheets, size, stored).sent, sheets);
    SentAreOriginals(solution, pages, PassOf(sheets, size, stored).sent);
  }

  /** What a pass sends, and what of it can be stored. */
  lemma {:induction false} PassSends(solution: seq<Payload>, size: nat, a: OnChain, stored: set<nat>)
    requires PartOf(a, solution) && stored <= PagesOf(ResumePass(solution, size, a, stored).sent)
    ensures Originals(solution, ResumePass(solution, size, a, stored).sent)
    ensures stored <= Below(|solution|) - StoredPages(a.bitmap)
    ensures ResumePass(solution, size, a, stored).failed == {} <==> stored == Below(|solution|) - StoredPages(a.bitmap)
  {
    MissingIsComplement(StoredPages(a.bitmap), |a.bitmap|);
    PassOver(solution, size, Missing(a), stored);
  }

  lemma {:induction false} StoreKeys(before: set<nat>, sent: set<nat>, stored: set<nat>)
    requires stored <= sent
    ensures before + sent * stored == before + stored
  {
  }

  lemma {:induction false} StorePart(solution: seq<Payload>, a: OnChain, sent: seq<Sheet>, stored: set<nat>)
    requires PartOf(a, solution) && Originals(solution, sent) && stored <= PagesOf(sent) && stored <= Below(|solution|)
    ensures PartOf(Store(a, sent, stored), solution)
    ensures StoredPages(Store(a, sent, stored).bitmap) == StoredPages(a.bitmap) + stored
  {
    FullBitmap(a.bitmap);
    MarkedPages(a, sent, stored);
    assert forall p :: p in a.content ==> p in Below(|solution|);
    WrittenPages(a.content, sent, stored, solution);
    StoreKeys(a.content.Keys, PagesOf(sent), stored);
  }

  /**
   A resume pass shrinks the missing pages by exactly what the chain stored, never writes anything
   but the solution, and leaves nothing missing exactly when it had no failure.
   */
  lemma {:induction false} ResumeProgresses(solution: seq<Payload>, size: nat, a: OnChain, stored: set<nat>, b: OnChain)
    requires Resumes(solution, size, a, stored, b)
    ensures PartOf(b, solution)
    ensures |Missing(b)| == |Missing(a)| - |stored|
    ensures Missing(b) == [] <==> ResumePass(solution, size, a, stored).failed == {}
  {
    PassSends(solution, size, a, stored);
    StorePart(solution, a, ResumePass(solution, size, a, stored).sent, stored);
    MissingIsComplement(StoredPages(a.bitmap), |solution|);
    MissingIsComplement(StoredPages(b.bitmap), |solution|);
    Shrinks(Below(|solution|), StoredPages(a.bitmap), stored);
  }

  lemma {:induction false} Shrinks(all: set<nat>, done: set<nat>, more: set<nat>)
    requires more <= all - done
    ensures |all - (done + more)| == |all - done| - |more|
    ensures |all - (done + more)| == 0 <==> more == all - done
  {
    assert all - (done + more) == (all - done) - more;
    NoRestIffSubset(all - done, more);
  }

  /** With nothing missing the miner reads its submission as done, and the chain holds the solution. */
  lemma {:induction false} NothingMissingIsDone(solution: seq<Payload>, chain: OnChain, score: Score)
    requires PartOf(chain, solution) && Missing(chain) == []
    ensures GetSubmission(Some(Metadata(score, chain.bitmap)), |solution|) == Done(score)
    ensures forall p :: 0 <= p < |solution| ==> p in chain.content && chain.content[p] == solution[p]
  {
    CompletenessTestsAgree(chain.bitmap);
    FullBitmap(chain.bitmap);
  }

  // ---- any number of passes ----

  ghost predicate ResumeRun(solution: seq<Payload>, size: nat, states: seq<OnChain>, stores: seq<set<nat>>) {
    && |states| == |stores| + 1
    && PartOf(states[0], solution)
    && forall i :: 0 <= i < |stores| ==> Resumes(solution, size, states[i], stores[i], states[i + 1])
  }

  /** Each pass gets something through until nothing is missing. */
  ghost predicate Productive(states: seq<OnChain>, stores: seq<set<nat>>) {
    |states| == |stores| + 1 && forall i :: 0 <= i < |stores| ==> Missing(states[i]) == [] || stores[i] != {}
  }

  /**
   Over any run of passes the number of missing pages never grows; if every pass gets at least
   one page through, as many passes as pages were missing complete the submission.
   */
  lemma {:induction false} RunProgresses(solution: seq<Payload>, size: nat, states: seq<OnChain>, stores: seq<set<nat>>)
    requires ResumeRun(solution, size, states, stores)
    ensures PartOf(states[|stores|], solution)
    ensures |Missing(states[|stores|])| <= |Missing(states[0])|
    ensures Productive(states, stores) ==>
      |Missing(states[|stores|])| == 0 || |Missing(states[|stores|])| + |stores| <= |Missing(states[0])|
  {
    if stores != [] {
      var n := |stores| - 1;
      RunProgresses(solution, size, states[..n + 1], stores[..n]);
      ResumeProgresses(solution, size, states[n], stores[n], states[n + 1]);
      if Productive(states, stores) {
        assert Productive(states[..n + 1], stores[..n]);
        assert Missing(states[n]) == [] || stores[n] != {};
      }
    }
  }

  // ---- after a submission ----

  /** Our submission as registered: no page stored yet. */
  function Fresh(n: nat): OnChain {
    OnChain(seq(n, i => false), map[])
  }

  /** What a submission with this log leaves on chain, as long as it is not bailed. */
  function LeftBy(solution: seq<Payload>, log: Log): OnChain {
    Store(Fresh(|solution|), Sends(log), Stored(log))
  }

  lemma {:induction false} OriginalsInRange(solution: seq<Payload>, sends: seq<Sheet>)
    requires Originals(solution, sends)
    ensures PagesOf(sends) <= Below(|solution|)
  {
  }

  lemma {:induction false} FreshIsPart(solution: seq<Payload>)
    ensures PartOf(Fresh(|solution|), solution) && StoredPages(Fresh(|solution|).bitmap) == {}
  {
  }

  /**
   Whatever `Submit` returned: its log sends original contents and, with honest events, stores only
   what was sent. So the chain is left with a part of the solution, and what it lacks is what was
   not stored.
   */
  lemma {:induction false} SubmissionLeavesPart(solution: seq<Payload>, log: Log)
    requires Originals(solution, Sends(log)) && Stored(log) <= PagesOf(Sends(log))
    ensures var left := LeftBy(solution, log);
            && PartOf(left, solution) && StoredPages(left.bitmap) == Stored(log)
            && |Missing(left)| + |Stored(log)| == |solution|
  {
    OriginalsInRange(solution, Sends(log));
    FreshIsPart(solution);
    StorePart(solution, Fresh(|solution|), Sends(log), Stored(log));
    MissingIsComplement(Stored(log), |solution|);
    assert {} + Stored(log) == Stored(log);
  }

  /**
   An incomplete submission, for instance one that reported success early, is completed by resume
   passes: as many as pages were left unstored, if each gets at least one page through.
   */
  lemma {:induction false} ResumingCompletesSubmission(
    solution: seq<Payload>, log: Log, size: nat, states: seq<OnChain>, stores: seq<set<nat>>, score: Score)
    requires Originals(solution, Sends(log)) && Stored(log) <= PagesOf(Sends(log))
    requires ResumeRun(solution, size, states, stores) && states[0] == LeftBy(solution, log)
    requires Productive(states, stores) && |stores| + |Stored(log)| >= |solution|
    ensures var last := states[|stores|];
            && GetSubmission(Some(Metadata(score, last.bitmap)), |solution|) == Done(score)
            && forall p :: 0 <= p < |solution| ==> p in last.content && last.content[p] == solution[p]
  {
    SubmissionLeavesPart(solution, log);
    RunProgresses(solution, size, states, stores);
    assert Missing(states[|stores|]) == [];
    NothingMissingIsDone(solution, states[|stores|], score);
  }
}
