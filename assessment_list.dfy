/**
 * The assessment list (src/pages/dashboard/assessment/AssessmentList.tsx): the request that
 * schedules interviews for the shortlisted candidates, and the three summary counts.
 */
module AssessmentList {
  import opened Wrappers
  import opened Records
  import opened Counting
  import opened Http
  import Text

  /** `job_id` after `job_id?._id || job_id`: an id, or the job object itself when its `_id` is empty. */
  datatype JobIdValue = JobId(id: string) | WholeJobObject(job: JobField)

  /**
   * The scheduling payload. `batch` and `candidateId` are the keys the builder may add after
   * the three it always sets; `None` is a key that was never set.
   */
  datatype SchedulePayload = SchedulePayload(
    jobId: JobIdValue,
    interviewerIds: seq<string>,
    mode: string,
    batch: Option<bool>,
    candidateId: Option<string>)

  const NoShortlistedError: string := "No shortlisted candidates available"
  const InvalidParametersError: string := "Invalid scheduling parameters"
  const CreatePath: string := "/is/create"

  /** `job_id?._id || job_id`, `None` when the result is falsy. */
  function ResolveJobId(job: Option<JobField>): (r: Option<JobIdValue>)
    ensures r.None? <==> job.None? || job.value == JobIdString("")
    ensures job.Some? && job.value.PopulatedJob? && job.value.id != "" ==> r == Some(JobId(job.value.id))
    ensures job.Some? && job.value.PopulatedJob? && job.value.id == "" ==> r == Some(WholeJobObject(job.value))
    ensures job.Some? && job.value.JobIdString? && job.value.text != "" ==> r == Some(JobId(job.value.text))
  {
    match job
    case None => None
    case Some(PopulatedJob(id, _)) => if id != "" then Some(JobId(id)) else Some(WholeJobObject(job.value))
    case Some(JobIdString(text)) => if text != "" then Some(JobId(text)) else None
  }

  /** `JSON.stringify(job_id)` for the two values that leave the job id unresolved. */
  function UnresolvedFieldText(job: Option<JobField>): (r: string)
    requires ResolveJobId(job).None?
    ensures job.None? ==> r == "undefined"
    ensures job.Some? ==> r == "\"\""
  {
    if job.None? then "undefined" else "\"\""
  }

  const JobIdMissingHead: string := "Job ID not found in candidate data.\nCandidate: "
  const JobIdFieldLabel: string := "\nJob ID Field: "

  /**
   * The message thrown when the first entry has no usable job id: it names the candidate, or
   * "Unknown" when the candidate or its name is missing or empty, and ends with the field's text.
   */
  function JobIdMissingMessage(first: AssessedCandidate): (m: string)
    requires ResolveJobId(first.job).None?
    ensures |m| > |JobIdMissingHead| && m[..|JobIdMissingHead|] == JobIdMissingHead
    ensures first.candidate.Some? && Text.Truthy(first.candidate.value.name) ==>
      var name := first.candidate.value.name.value;
      |m| >= |JobIdMissingHead| + |name| && m[|JobIdMissingHead|..|JobIdMissingHead| + |name|] == name
    ensures first.candidate.None? || !Text.Truthy(first.candidate.value.name) ==>
      |m| >= |JobIdMissingHead| + 7 && m[|JobIdMissingHead|..|JobIdMissingHead| + 7] == "Unknown"
    ensures var tail := JobIdFieldLabel + UnresolvedFieldText(first.job);
      |m| >= |tail| && m[|m| - |tail|..] == tail
    ensures var name := if first.candidate.Some? && Text.Truthy(first.candidate.value.name)
        then first.candidate.value.name.value else "Unknown";
      |m| == |JobIdMissingHead| + |name| + |JobIdFieldLabel| + |UnresolvedFieldText(first.job)|
  {
    var name := if first.candidate.Some? then Text.OrElse(first.candidate.value.name, "Unknown") else "Unknown";
    var tail := JobIdFieldLabel + UnresolvedFieldText(first.job);
    var m := JobIdMissingHead + name + tail;
    assert m[..|JobIdMissingHead|] == JobIdMissingHead;
    assert m[|JobIdMissingHead|..|JobIdMissingHead| + |name|] == name;
    assert m[|m| - |tail|..] == tail;
    m
  }

  /**
   * The mutation's request phase: checks the list, resolves the job id from the first entry
   * whichever candidate is being scheduled, builds the payload key by key, and yields the one
   * POST it sends, or the message it throws before sending anything.
   */
  method ScheduleInterviews(shortlisted: seq<AssessedCandidate>, candidateId: Option<string>, batch: bool)
    returns (r: Result<Request<SchedulePayload>, string>)
    ensures |shortlisted| == 0 ==> r == Failure(NoShortlistedError)
    ensures |shortlisted| > 0 && ResolveJobId(shortlisted[0].job).None? ==>
      r == Failure(JobIdMissingMessage(shortlisted[0]))
    ensures |shortlisted| > 0 && ResolveJobId(shortlisted[0].job).Some? && !batch && !Text.Truthy(candidateId) ==>
      r == Failure(InvalidParametersError)
    ensures r.Success? <==>
      |shortlisted| > 0 && ResolveJobId(shortlisted[0].job).Some? && (batch || Text.Truthy(candidateId))
    ensures r.Success? ==>
      && r.value.verb == Post && r.value.url == CreatePath
      && r.value.payload.jobId == ResolveJobId(shortlisted[0].job).value
      && r.value.payload.interviewerIds == [] && r.value.payload.mode == "online"
    ensures r.Success? && batch ==> r.value.payload.batch == Some(true) && r.value.payload.candidateId.None?
    ensures r.Success? && !batch ==> r.value.payload.batch.None? && r.value.payload.candidateId == candidateId
  {
    if |shortlisted| == 0 {
      return Failure(NoShortlistedError);
    }
    var first := shortlisted[0];
    var jobId := ResolveJobId(first.job);
    if jobId.None? {
      return Failure(JobIdMissingMessage(first));
    }
    var payload := SchedulePayload(jobId.value, [], "online", None, None);
    if batch {
      payload := payload.(batch := Some(true));
    } else if Text.Truthy(candidateId) {
      payload := payload.(candidateId := candidateId);
    } else {
      return Failure(InvalidParametersError);
    }
    r := Success(Request(Post, CreatePath, payload));
  }

  // ----- summary counts -----

  /** `response?.shortlisted || []`, then `shortlisted?.length || 0`. */
  function TotalCount(shortlisted: Option<seq<AssessedCandidate>>): (n: nat)
    ensures shortlisted.None? ==> n == 0
    ensures shortlisted.Some? ==> n == |shortlisted.value|
  {
    |shortlisted.GetOr([])|
  }

  /** The "Completed" card counts a final recommendation of 'yes' or 'strong_yes'. */
  predicate RecommendsHire(c: AssessedCandidate) {
    c.aiAnalysis.Some? && c.aiAnalysis.value.finalRecommendation in {Some("yes"), Some("strong_yes")}
  }

  /** The "Below 70%" card counts a truthy percentage under 70: zero and missing are left out. */
  predicate BelowSeventy(c: AssessedCandidate) {
    c.percentage.Some? && c.percentage.value != 0.0 && c.percentage.value < 70.0
  }

  function CompletedCount(s: seq<AssessedCandidate>): (n: nat)
    ensures n <= |s|
    ensures n == |MatchingIndices(s, RecommendsHire)|
  {
    CountWhere(s, RecommendsHire)
  }

  function BelowSeventyCount(s: seq<AssessedCandidate>): (n: nat)
    ensures n <= |s|
    ensures n == |MatchingIndices(s, BelowSeventy)|
  {
    CountWhere(s, BelowSeventy)
  }

  /** One more entry raises "Completed" by one exactly when its recommendation is 'yes' or 'strong_yes'. */
  lemma CompletedCountStep(s: seq<AssessedCandidate>, c: AssessedCandidate)
    ensures CompletedCount(s + [c]) == CompletedCount(s) +
      (if c.aiAnalysis.Some? && (c.aiAnalysis.value.finalRecommendation == Some("yes") ||
                                 c.aiAnalysis.value.finalRecommendation == Some("strong_yes")) then 1 else 0)
  {
    CountAppend(s, [c], RecommendsHire);
    assert [c][1..] == [];
  }

  /** One more entry raises "Below 70%" by one exactly when its percentage is present, non-zero and under 70. */
  lemma BelowSeventyCountStep(s: seq<AssessedCandidate>, c: AssessedCandidate)
    ensures BelowSeventyCount(s + [c]) == BelowSeventyCount(s) +
      (if c.percentage.Some? && c.percentage.value != 0.0 && c.percentage.value < 70.0 then 1 else 0)
    ensures c.percentage.None? || c.percentage == Some(0.0) ==> BelowSeventyCount(s + [c]) == BelowSeventyCount(s)
  {
    CountAppend(s, [c], BelowSeventy);
    assert [c][1..] == [];
  }
}
