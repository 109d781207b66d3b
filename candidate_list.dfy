/**
 * Candidate screening (src/pages/dashboard/resume/CandidateList.tsx): which candidates the
 * table lists, the guards in front of the shortlisting and assessment requests, the tally
 * shown once the assessment requests settle, and the table's skills and status cells.
 */
module CandidateList {
  import opened Wrappers
  import opened Records
  import opened Counting
  import Text
  import SkillBadges
  import ResumeApi
  import opened Http

  /** The two tabs, `candidateType`. */
  datatype Tab = AppliedTab | ShortlistedTab

  /** The fetched list: applicants on the applied tab, shortlisting entries on the other. */
  datatype Listing = AppliedList(applied: seq<Candidate>) | ShortlistedList(shortlisted: seq<ShortlistedCandidate>)

  function Length(l: Listing): nat {
    match l
    case AppliedList(a) => |a|
    case ShortlistedList(s) => |s|
  }

  /** The query key holds the tab, so the data on screen is always of the tab's kind. */
  predicate Matches(tab: Tab, l: Listing) {
    (tab == AppliedTab) == l.AppliedList?
  }

  /**
   * The list query: "all" is passed on as an id, so the applied tab asks for every applicant
   * while the shortlisted tab asks for the path of a description whose id is "all".
   */
  function CandidatesRequest(tab: Tab, selectedJd: string): (r: Request<()>)
    ensures tab == AppliedTab ==> r == ResumeApi.GetAllCandidates(Some(selectedJd))
    ensures tab == ShortlistedTab ==> r == ResumeApi.GetShortlistedCandidates(Some(selectedJd))
  {
    var jdIdParam := if selectedJd == "all" then "all" else selectedJd;
    if tab == AppliedTab then ResumeApi.GetAllCandidates(Some(jdIdParam))
    else ResumeApi.GetShortlistedCandidates(Some(jdIdParam))
  }

  /** With "all" selected the shortlisted tab does not use the unfiltered shortlisting path. */
  lemma AllSelectedShortlistedPath()
    ensures CandidatesRequest(ShortlistedTab, "all").url == ResumeApi.ShortlistedPath + "/all"
    ensures CandidatesRequest(ShortlistedTab, "all") != ResumeApi.GetShortlistedCandidates(None)
    ensures CandidatesRequest(AppliedTab, "all") == ResumeApi.GetAllCandidates(None)
  {
    ResumeApi.AllDiffersFromAbsentForShortlisted();
    ResumeApi.AllMatchesAbsentForApplied();
  }

  /** The score the sort compares: `aiEvaluation?.score || 0`. */
  function Score(c: ShortlistedCandidate): int {
    match c.aiEvaluation
    case Some(e) => e.score
    case None => 0
  }

  /** `c.aiEvaluation?.score && c.aiEvaluation.score >= 70`. */
  predicate HighScoring(c: ShortlistedCandidate) {
    c.aiEvaluation.Some? && c.aiEvaluation.value.score != 0 && c.aiEvaluation.value.score >= 70
  }

  ghost predicate SortedByScore(s: seq<ShortlistedCandidate>) {
    forall i, j :: 0 <= i < j < |s| ==> Score(s[i]) >= Score(s[j])
  }

  /** The entries of `s` with score `k`, in order: what a stable sort must leave unchanged. */
  function WithScore(s: seq<ShortlistedCandidate>, k: int): seq<ShortlistedCandidate> {
    if s == [] then [] else (if Score(s[0]) == k then [s[0]] else []) + WithScore(s[1..], k)
  }

  /** Selecting by score distributes over concatenation. */
  lemma {:induction false} WithScoreAppend(a: seq<ShortlistedCandidate>, b: seq<ShortlistedCandidate>, k: int)
    ensures WithScore(a + b, k) == WithScore(a, k) + WithScore(b, k)
  {
    if a == [] {
      assert a + b == b;
    } else {
      assert (a + b)[0] == a[0] && (a + b)[1..] == a[1..] + b;
      WithScoreAppend(a[1..], b, k);
    }
  }

  /**
   * The filter: every high-scoring entry is kept as often as it occurs and every other entry
   * is dropped (KeepHighScoringScoreOrder adds that each score's entries keep their order).
   */
  function KeepHighScoring(s: seq<ShortlistedCandidate>): (r: seq<ShortlistedCandidate>)
    ensures forall c :: c in r <==> c in s && HighScoring(c)
    ensures forall c :: multiset(r)[c] == if HighScoring(c) then multiset(s)[c] else 0
    ensures |r| <= |s|
  {
    if s == [] then []
    else
      assert s == [s[0]] + s[1..];
      assert multiset(s) == multiset{s[0]} + multiset(s[1..]);
      (if HighScoring(s[0]) then [s[0]] else []) + KeepHighScoring(s[1..])
  }

  /** The entries kept with a given score are exactly the fetched ones with that score, in order. */
  lemma {:induction false} KeepHighScoringScoreOrder(s: seq<ShortlistedCandidate>, k: int)
    ensures WithScore(KeepHighScoring(s), k) == if k >= 70 then WithScore(s, k) else []
  {
    if s != [] {
      var head := if HighScoring(s[0]) then [s[0]] else [];
      var rest := KeepHighScoring(s[1..]);
      assert KeepHighScoring(s) == head + rest;
      KeepHighScoringScoreOrder(s[1..], k);
      WithScoreAppend(head, rest, k);
      assert WithScore(s, k) == (if Score(s[0]) == k then [s[0]] else []) + WithScore(s[1..], k);
      if HighScoring(s[0]) {
        WithScoreCons(s[0], [], k);
        assert [s[0]] + [] == head;
      } else {
        assert WithScore(head, k) == [];
      }
    }
  }

  /** Insert `x` before the first entry whose score is not above its own. */
  function InsertByScore(x: ShortlistedCandidate, s: seq<ShortlistedCandidate>): (r: seq<ShortlistedCandidate>)
    ensures multiset(r) == multiset(s) + multiset{x}
  {
    if s == [] || Score(s[0]) <= Score(x) then [x] + s
    else
      assert s == [s[0]] + s[1..];
      [s[0]] + InsertByScore(x, s[1..])
  }

  /** Putting an entry in front of a sorted list keeps it sorted when no entry outscores it. */
  lemma SortedCons(x: ShortlistedCandidate, s: seq<ShortlistedCandidate>)
    requires SortedByScore(s)
    requires forall y :: y in s ==> Score(y) <= Score(x)
    ensures SortedByScore([x] + s)
  {
    var r := [x] + s;
    forall i, j | 0 <= i < j < |r| ensures Score(r[i]) >= Score(r[j]) {
      assert r[j] == s[j - 1];
      if i > 0 {
        assert r[i] == s[i - 1];
      } else {
        assert r[j] in s;
      }
    }
  }

  lemma {:induction false} InsertKeepsSorted(x: ShortlistedCandidate, s: seq<ShortlistedCandidate>)
    requires SortedByScore(s)
    ensures SortedByScore(InsertByScore(x, s))
  {
    if s == [] || Score(s[0]) <= Score(x) {
      forall y | y in s ensures Score(y) <= Score(x) {
        var j :| 0 <= j < |s| && s[j] == y;
        assert Score(s[0]) >= Score(s[j]) || j == 0;
      }
      SortedCons(x, s);
    } else {
      var tail := InsertByScore(x, s[1..]);
      InsertKeepsSorted(x, s[1..]);
      forall y | y in tail ensures Score(y) <= Score(s[0]) {
        assert y in multiset(tail);
        if y != x {
          assert y in multiset(s[1..]);
          var j :| 0 <= j < |s[1..]| && s[1..][j] == y;
          assert s[j + 1] == y;
        }
      }
      SortedCons(s[0], tail);
    }
  }

  lemma WithScoreCons(a: ShortlistedCandidate, t: seq<ShortlistedCandidate>, k: int)
    ensures WithScore([a] + t, k) == (if Score(a) == k then [a] else []) + WithScore(t, k)
  {
    assert ([a] + t)[1..] == t;
  }

  /** Inserting adds `x` in front of the entries of its score and leaves every other score's entries alone. */
  lemma {:induction false} InsertKeepsScoreOrder(x: ShortlistedCandidate, s: seq<ShortlistedCandidate>, k: int)
    ensures WithScore(InsertByScore(x, s), k) == (if Score(x) == k then [x] else []) + WithScore(s, k)
  {
    if s == [] || Score(s[0]) <= Score(x) {
      assert InsertByScore(x, s) == [x] + s;
      WithScoreCons(x, s, k);
    } else {
      InsertKeepsScoreOrder(x, s[1..], k);
      InsertPastHead(x, s, k);
      WithScoreCons(s[0], s[1..], k);
      assert [s[0]] + s[1..] == s;
      SwapEmpty(if Score(x) == k then [x] else [], if Score(s[0]) == k then [s[0]] else [], WithScore(s[1..], k));
    }
  }

  /** Inserting past an entry that outscores `x` keeps that entry in front. */
  lemma InsertPastHead(x: ShortlistedCandidate, s: seq<ShortlistedCandidate>, k: int)
    requires s != [] && Score(s[0]) > Score(x)
    ensures WithScore(InsertByScore(x, s), k)
      == (if Score(s[0]) == k then [s[0]] else []) + WithScore(InsertByScore(x, s[1..]), k)
  {
    assert InsertByScore(x, s) == [s[0]] + InsertByScore(x, s[1..]);
    WithScoreCons(s[0], InsertByScore(x, s[1..]), k);
  }

  lemma SwapEmpty<T>(a: seq<T>, b: seq<T>, w: seq<T>)
    requires a == [] || b == []
    ensures b + (a + w) == a + (b + w)
  {
    if a == [] {
      assert a + w == w && b + w == a + (b + w);
    } else {
      assert b + (a + w) == a + w && b + w == w;
    }
  }




  /**
   * `.sort((a, b) => score(b) - score(a))`: highest score first, a permutation of the input, and,
   * the sort being stable, entries with equal scores keep their order.
   */
  function SortByScore(s: seq<ShortlistedCandidate>): (r: seq<ShortlistedCandidate>)
    ensures SortedByScore(r)
    ensures multiset(r) == multiset(s)
    ensures forall k :: WithScore(r, k) == WithScore(s, k)
  {
    if s == [] then []
    else
      var rest := SortByScore(s[1..]);
      InsertKeepsSorted(s[0], rest);
      assert s == [s[0]] + s[1..];
      var r := InsertByScore(s[0], rest);
      assert forall k :: WithScore(r, k) == WithScore(s, k) by {
        forall k ensures WithScore(r, k) == WithScore(s, k) {
          InsertKeepsScoreOrder(s[0], rest, k);
          WithScoreCons(s[0], s[1..], k);
        }
      }
      r
  }

  /** `processedCandidates`: the list the table shows. */
  function ProcessedCandidates(tab: Tab, fetched: Option<Listing>): (r: Listing)
    requires fetched.Some? ==> Matches(tab, fetched.value)
    ensures Matches(tab, r)
    ensures fetched.None? ==> Length(r) == 0
    ensures tab == AppliedTab && fetched.Some? ==> r == fetched.value
    ensures tab == ShortlistedTab && fetched.Some? ==>
      && (forall c :: c in r.shortlisted <==> c in fetched.value.shortlisted && HighScoring(c))
      && SortedByScore(r.shortlisted)
      && multiset(r.shortlisted) == multiset(KeepHighScoring(fetched.value.shortlisted))
  {
    match fetched
    case None => if tab == AppliedTab then AppliedList([]) else ShortlistedList([])
    case Some(l) =>
      if tab == ShortlistedTab then
        var kept := KeepHighScoring(l.shortlisted);
        var sorted := SortByScore(kept);
        assert forall c :: c in sorted <==> c in kept by {
          forall c ensures c in sorted <==> c in kept {
            assert c in sorted <==> c in multiset(sorted);
            assert c in kept <==> c in multiset(kept);
          }
        }
        ShortlistedList(sorted)
      else l
  }

  /**
   * The shortlisted table is the fetched list's high-scoring entries, each as often as fetched,
   * and entries of equal score appear in the fetched order.
   */
  lemma ShortlistedTabShowsHighScoringInOrder(fetched: seq<ShortlistedCandidate>, k: int)
    ensures var shown := ProcessedCandidates(ShortlistedTab, Some(ShortlistedList(fetched))).shortlisted;
      && (forall c :: multiset(shown)[c] == if HighScoring(c) then multiset(fetched)[c] else 0)
      && WithScore(shown, k) == if k >= 70 then WithScore(fetched, k) else []
  {
    KeepHighScoringScoreOrder(fetched, k);
  }

  /** A kept entry always has a score of at least 70, so the sort never falls back to 0. */
  lemma ShortlistedScoresAtLeast70(fetched: seq<ShortlistedCandidate>)
    ensures forall c :: c in ProcessedCandidates(ShortlistedTab, Some(ShortlistedList(fetched))).shortlisted ==>
      c.aiEvaluation.Some? && Score(c) >= 70
  {
  }

  // ----- handleShortlist -----

  datatype ShortlistOutcome = RequestShortlist(request: ShortlistRequest) | ShortlistRefused(message: string)

  const SelectJdError: string := "Please select a job description"

  /** `handleShortlist`: request AI shortlisting for the selected job description, if one is selected. */
  function HandleShortlist(selectedJd: string): (r: ShortlistOutcome)
    ensures r.RequestShortlist? <==> selectedJd != "" && selectedJd != "all"
    ensures r.RequestShortlist? ==> r.request == ShortlistRequest(selectedJd)
    ensures r.ShortlistRefused? ==> r.message == SelectJdError
  {
    if selectedJd != "" && selectedJd != "all" then RequestShortlist(ShortlistRequest(selectedJd))
    else ShortlistRefused(SelectJdError)
  }

  // ----- handleSendAssessments -----

  datatype SendOutcome = SendRefused(message: string) | SendToAll(candidates: seq<ShortlistedCandidate>)

  const SwitchTabError: string := "Switch to Shortlisted Candidates tab first"
  const NoCandidatesError: string := "No candidates to send assessments to"
  const SpecificJdError: string := "Please select a specific job description"

  /** `handleSendAssessments`: three checks in order; the first that fails stops with its message. */
  function HandleSendAssessments(tab: Tab, processed: Listing, selectedJd: string): (r: SendOutcome)
    requires Matches(tab, processed)
    ensures r.SendToAll? <==> tab == ShortlistedTab && Length(processed) > 0 && selectedJd != "all"
    ensures tab != ShortlistedTab ==> r == SendRefused(SwitchTabError)
    ensures tab == ShortlistedTab && Length(processed) == 0 ==> r == SendRefused(NoCandidatesError)
    ensures tab == ShortlistedTab && Length(processed) > 0 && selectedJd == "all" ==> r == SendRefused(SpecificJdError)
    ensures r.SendToAll? ==> r.candidates == processed.shortlisted
  {
    if tab != ShortlistedTab then SendRefused(SwitchTabError)
    else if Length(processed) == 0 then SendRefused(NoCandidatesError)
    else if selectedJd == "all" then SendRefused(SpecificJdError)
    else SendToAll(processed.shortlisted)
  }

  // ----- initAssessmentMutation -----

  const JdNotFoundError: string := "Job description not found"

  /** `jds?.find((jd) => jd._id === selectedJD)`. */
  function FindJd(jds: seq<JobDescription>, id: string): (r: Option<JobDescription>)
    ensures r.None? <==> forall jd :: jd in jds ==> jd.id != id
    ensures r.Some? ==> r.value in jds && r.value.id == id
    ensures r.Some? ==> exists i :: 0 <= i < |jds| && jds[i] == r.value && forall j :: 0 <= j < i ==> jds[j].id != id
  {
    if jds == [] then None
    else if jds[0].id == id then Some(jds[0])
    else
      var r := FindJd(jds[1..], id);
      if r.Some? then
        var i :| 0 <= i < |jds[1..]| && jds[1..][i] == r.value && forall j :: 0 <= j < i ==> jds[1..][j].id != id;
        assert jds[i + 1] == r.value;
        r
      else r
  }

  /** One `assessmentApi.init` request per candidate, in order. */
  function InitRequests(candidates: seq<ShortlistedCandidate>, jd: JobDescription): (r: seq<AssessmentInit>)
    ensures |r| == |candidates|
    ensures forall i :: 0 <= i < |candidates| ==>
      r[i] == AssessmentInit(candidates[i].candidate.id, jd.id, jd.aiResponse.jobTitle, jd.aiResponse.skills, "MCQ")
  {
    if candidates == [] then []
    else
      [AssessmentInit(candidates[0].candidate.id, jd.id, jd.aiResponse.jobTitle, jd.aiResponse.skills, "MCQ")]
      + InitRequests(candidates[1..], jd)
  }

  /**
   * The mutation's request phase: fails before any request when the selected job description
   * is not among those fetched, otherwise one init request per candidate for that description.
   */
  function InitAssessments(jds: Option<seq<JobDescription>>, selectedJd: string, candidates: seq<ShortlistedCandidate>)
    : (r: Result<seq<AssessmentInit>, string>)
    ensures r.Failure? <==> jds.None? || forall jd :: jd in jds.value ==> jd.id != selectedJd
    ensures r.Failure? ==> r.error == JdNotFoundError
    ensures r.Success? ==> |r.value| == |candidates|
    ensures r.Success? ==> forall i :: 0 <= i < |candidates| ==>
      r.value[i].candidateId == candidates[i].candidate.id && r.value[i].jobId == selectedJd && r.value[i].testType == "MCQ"
    ensures r.Success? ==>
      && jds.Some? && FindJd(jds.value, selectedJd).Some?
      && r.value == InitRequests(candidates, FindJd(jds.value, selectedJd).value)
  {
    var found := if jds.None? then None else FindJd(jds.value, selectedJd);
    match found
    case None => Failure(JdNotFoundError)
    case Some(jd) => Success(InitRequests(candidates, jd))
  }

  /** The outcome of one request under `Promise.allSettled`. */
  datatype Settled = Fulfilled | Rejected

  function IsFulfilled(s: Settled): bool { s.Fulfilled? }
  function IsRejected(s: Settled): bool { s.Rejected? }

  datatype Tally = Tally(successful: nat, failed: nat)

  /** The two `filter(...).length` counts of `onSuccess`: every settled request is counted once. */
  function TallyOf(results: seq<Settled>): (t: Tally)
    ensures t.successful + t.failed == |results|
    ensures t.successful == |MatchingIndices(results, IsFulfilled)|
    ensures t.failed == |MatchingIndices(results, IsRejected)|
  {
    CountComplement(results, IsFulfilled, IsRejected);
    Tally(CountWhere(results, IsFulfilled), CountWhere(results, IsRejected))
  }

  /** "s" unless exactly one. */
  function PluralSuffix(n: nat): (r: string)
    ensures r == "" <==> n == 1
    ensures r != "" ==> r == "s"
  {
    if n != 1 then "s" else ""
  }

  /** " (k failed)" only when some failed. */
  function FailedNote(failed: nat): (r: string)
    ensures r == "" <==> failed == 0
    ensures failed > 0 ==> r == " (" + Text.NatToDecimal(failed) + " failed)"
  {
    if failed > 0 then " (" + Text.NatToDecimal(failed) + " failed)" else ""
  }

  const TallyPrefix: string := "Assessment initialized for "

  /**
   * What the notification for `successful` fulfilled and `failed` rejected requests looks like:
   * the prefix, the number of successes in decimal, " candidate" followed by an "s" exactly when
   * that number is not 1, and a closing " (k failed)" exactly when some failed; nothing else.
   */
  ghost predicate TallyShape(m: string, successful: nat, failed: nat) {
    var digits := Text.NatToDecimal(successful);
    var n := |TallyPrefix| + |digits|;
    && |m| >= n + 10
    && m[..|TallyPrefix|] == TallyPrefix
    && m[|TallyPrefix|..n] == digits && Text.DecimalValue(digits) == successful
    && m[n..n + 10] == " candidate"
    && (successful != 1 <==> |m| > n + 10 && m[n + 10] == 's')
    && (failed == 0 <==> m[|m| - 1] != ')')
    && (failed == 0 ==> |m| == n + 10 + |PluralSuffix(successful)|)
    && (failed > 0 ==> m[n + 10 + |PluralSuffix(successful)|..] == " (" + Text.NatToDecimal(failed) + " failed)")
  }

  /** The success notification once all init requests have settled. */
  function TallyMessage(results: seq<Settled>): (m: string)
    ensures TallyShape(m, TallyOf(results).successful, TallyOf(results).failed)
  {
    var t := TallyOf(results);
    ComposedMessageShape(t.successful, t.failed);
    ComposedMessage(t.successful, t.failed)
  }

  function ComposedMessage(successful: nat, failed: nat): string {
    TallyPrefix + Text.NatToDecimal(successful) + " candidate" + PluralSuffix(successful) + FailedNote(failed)
  }

  lemma ComposedMessageShape(successful: nat, failed: nat)
    ensures TallyShape(ComposedMessage(successful, failed), successful, failed)
  {
    var digits := Text.NatToDecimal(successful);
    var suffix, note := PluralSuffix(successful), FailedNote(failed);
    Text.DecimalRoundTrip(successful);
    ConcatParts(TallyPrefix, digits, " candidate", suffix, note);
    var m := ComposedMessage(successful, failed);
    var n := |TallyPrefix| + |digits|;
    assert m[n + 10..] == suffix + note;
    if failed > 0 {
      assert note[0] == ' ' && note[|note| - 1] == ')';
    }
    assert m[|m| - 1] == (" candidate" + suffix + note)[|" candidate" + suffix + note| - 1];
  }

  /** The pieces of a concatenation can be cut back out of it. */
  lemma ConcatParts(a: string, b: string, c: string, d: string, e: string)
    ensures var m := a + b + c + d + e;
      && m[..|a|] == a
      && m[|a|..|a| + |b|] == b
      && m[|a| + |b|..|a| + |b| + |c|] == c
      && m[|a| + |b| + |c|..] == d + e
      && m[|a| + |b|..] == c + d + e
  {
  }

  /** Two tallies that produce the same message are the same tally: the message can be read back. */
  lemma TallyMessageInjective(a: seq<Settled>, b: seq<Settled>)
    requires TallyMessage(a) == TallyMessage(b)
    ensures TallyOf(a) == TallyOf(b)
  {
    var m, ta, tb := TallyMessage(a), TallyOf(a), TallyOf(b);
    SuccessesDetermined(m, ta.successful, ta.failed, tb.successful, tb.failed);
    FailuresDetermined(m, ta.successful, ta.failed, tb.failed);
  }

  lemma SuccessesDetermined(m: string, s1: nat, f1: nat, s2: nat, f2: nat)
    requires TallyShape(m, s1, f1) && TallyShape(m, s2, f2)
    ensures s1 == s2
  {
    var p := |TallyPrefix|;
    var d1, d2 := Text.NatToDecimal(s1), Text.NatToDecimal(s2);
    // The digits end where " candidate" begins.
    assert m[p + |d1|] == m[p + |d1|..p + |d1| + 10][0] == ' ';
    assert m[p + |d2|] == m[p + |d2|..p + |d2| + 10][0] == ' ';
    Text.DigitRunsAgree(m, p, d1, d2);
    Text.DecimalInjective(s1, s2);
  }

  lemma FailuresDetermined(m: string, successful: nat, f1: nat, f2: nat)
    requires TallyShape(m, successful, f1) && TallyShape(m, successful, f2)
    ensures f1 == f2
  {
    if f1 > 0 && f2 > 0 {
      FailedNoteInjective(f1, f2);
    }
  }

  lemma FailedNoteInjective(f1: nat, f2: nat)
    requires " (" + Text.NatToDecimal(f1) + " failed)" == " (" + Text.NatToDecimal(f2) + " failed)"
    ensures f1 == f2
  {
    var e1, e2 := Text.NatToDecimal(f1), Text.NatToDecimal(f2);
    assert e1 == (" (" + e1 + " failed)")[2..2 + |e1|];
    assert e2 == (" (" + e2 + " failed)")[2..2 + |e2|];
    Text.DecimalInjective(f1, f2);
  }

  /** When every request was answered: the successes plus the failures are the candidates sent. */
  lemma TallyCoversCandidates(jds: Option<seq<JobDescription>>, selectedJd: string,
                              candidates: seq<ShortlistedCandidate>, results: seq<Settled>)
    requires InitAssessments(jds, selectedJd, candidates).Success?
    requires |results| == |InitAssessments(jds, selectedJd, candidates).value|
    ensures TallyOf(results).successful + TallyOf(results).failed == |candidates|
  {
  }

  // ----- table cells -----

  datatype SkillsCell = NoSkills | SkillList(badges: SkillBadges.Badges)

  /** The applied tab's skills cell: "-" when there are no skills, else the first three and `+k`. */
  function SkillsCellOf(skills: Option<seq<string>>): (r: SkillsCell)
    ensures r.NoSkills? <==> skills.None? || |skills.value| == 0
    ensures r.SkillList? ==> r.badges == SkillBadges.Truncate(skills.value)
  {
    match skills
    case Some(s) => if |s| > 0 then SkillList(SkillBadges.Truncate(s)) else NoSkills
    case None => NoSkills
  }

  const StatusLabels: map<string, string> := map[
    "new" := "New", "screening" := "Screening", "shortlisted" := "Shortlisted",
    "assessment" := "Assessment", "interview" := "Interview", "offer" := "Offer",
    "rejected" := "Rejected", "hired" := "Hired"]

  /** `getStatusBadge(candidateData.status || "new")`: an unknown or missing status shows as "New". */
  function StatusLabel(status: Option<string>): (shown: string)
    ensures var s := Text.OrElse(status, "new");
      (s in StatusLabels ==> shown == StatusLabels[s]) && (s !in StatusLabels ==> shown == "New")
    ensures shown in StatusLabels.Values
  {
    var s := Text.OrElse(status, "new");
    if s in StatusLabels then StatusLabels[s] else StatusLabels["new"]
  }

  /** The eight statuses show eight different labels. */
  lemma StatusLabelsDistinct()
    ensures forall a, b :: a in StatusLabels && b in StatusLabels && a != b ==> StatusLabels[a] != StatusLabels[b]
  {
  }

  // ----- page state -----

  /** The selectors and the profile dialog of the page. */
  class CandidateListView {
    var selectedJd: string
    var tab: Tab
    var selectedCandidate: Option<Candidate>
    var profileOpen: bool

    constructor ()
      ensures selectedJd == "all" && tab == AppliedTab && selectedCandidate == None && !profileOpen
    {
      selectedJd := "all";
      tab := AppliedTab;
      selectedCandidate := None;
      profileOpen := false;
    }

    method SelectJd(id: string)
      modifies this
      ensures selectedJd == id && tab == old(tab)
      ensures selectedCandidate == old(selectedCandidate) && profileOpen == old(profileOpen)
    {
      selectedJd := id;
    }

    method SelectTab(t: Tab)
      modifies this
      ensures tab == t && selectedJd == old(selectedJd)
      ensures selectedCandidate == old(selectedCandidate) && profileOpen == old(profileOpen)
    {
      tab := t;
    }

    /**
     * `handleViewProfile` on a row's candidate record: a record with a `resume` key is shown in
     * the dialog; one without is read as a shortlisting entry, whose `candidateId` it lacks,
     * so only an error is shown and nothing changes.
     */
    method ViewProfile(c: Candidate) returns (dialogShown: bool)
      modifies this
      ensures dialogShown <==> c.resume.Some?
      ensures dialogShown ==> selectedCandidate == Some(c) && profileOpen
      ensures !dialogShown ==> selectedCandidate == old(selectedCandidate) && profileOpen == old(profileOpen)
      ensures selectedJd == old(selectedJd) && tab == old(tab)
    {
      dialogShown := c.resume.Some?;
      if dialogShown {
        selectedCandidate := Some(c);
        profileOpen := true;
      }
    }
  }
}
