/**
 * The backend records the pages read, after the files under src/types. A field the type marks optional,
 * or that the page tests before use, is an `Option`; `None` stands for an absent key.
 * Where a page reads a record in a different shape from its declared type (a populated
 * reference instead of an id), the shape the page reads is the one kept.
 */
module Records {
  import opened Wrappers

  // ----- assessment.ts -----

  datatype Question = Question(
    questionId: string,
    questionText: string,
    options: seq<string>,
    correctAnswer: string,
    marks: real)

  datatype TestStatus = TestPending | TestInProgress | TestCompleted | TestEvaluated

  /** A test as served to the candidate's test screen. */
  datatype Assessment = Assessment(
    id: string,
    candidateId: string,
    jobId: string,
    questions: seq<Question>,
    testStatus: TestStatus,
    totalMarks: real,
    testType: string,
    durationMinutes: Option<int>)

  /** `candidate_id` as populated in an assessed candidate. */
  datatype CandidateRef = CandidateRef(id: string, name: Option<string>, email: Option<string>)

  /** `job_id` of an assessed candidate: typed as a populated object, but a bare id also occurs. */
  datatype JobField = PopulatedJob(id: string, title: string) | JobIdString(text: string)

  datatype SectionScore = SectionScore(sectionName: Option<string>, maxMarks: Option<real>, obtainedMarks: real)

  datatype AiAnalysis = AiAnalysis(finalRecommendation: Option<string>)

  /** `ShortlistedCandidate` of assessment.ts: a candidate together with a scored test. */
  datatype AssessedCandidate = AssessedCandidate(
    id: string,
    candidate: Option<CandidateRef>,
    job: Option<JobField>,
    totalScore: Option<real>,
    percentage: Option<real>,
    passingScore: Option<real>,
    sectionScores: seq<SectionScore>,
    aiAnalysis: Option<AiAnalysis>)

  // ----- candidate.ts -----

  /** An applicant. `resume` is `None` when the key is missing from the record. */
  datatype Candidate = Candidate(
    id: string,
    name: string,
    email: string,
    phone: Option<string>,
    resume: Option<string>,
    skills: Option<seq<string>>,
    jobId: string,
    createdAt: string,
    status: Option<string>)

  datatype AiEvaluation = AiEvaluation(score: int, confidence: real, recommendation: string, reasoning: string)

  /** `ShortlistedCandidate` of candidate.ts: a shortlisting entry wrapping the applicant. */
  datatype ShortlistedCandidate = ShortlistedCandidate(
    id: string,
    candidate: Candidate,
    jobId: string,
    status: string,
    aiEvaluation: Option<AiEvaluation>)

  datatype ShortlistRequest = ShortlistRequest(jdId: string)

  // ----- jd.ts -----

  datatype JdStatus = Queued | Processing | Completed | Failed

  datatype ApprovalStatus = ApprovalPending | Approved | Rejected

  /** The wire value of a job status, as the API sends it. */
  function JdStatusText(s: JdStatus): string {
    match s
    case Queued => "queued"
    case Processing => "processing"
    case Completed => "completed"
    case Failed => "failed"
  }

  /** The wire value of an approval status. */
  function ApprovalStatusText(a: ApprovalStatus): string {
    match a
    case ApprovalPending => "pending"
    case Approved => "approved"
    case Rejected => "rejected"
  }

  datatype AiJobResponse = AiJobResponse(jobTitle: string, skills: seq<string>, salaryRange: string)

  datatype JobDescription = JobDescription(
    id: string,
    prompt: string,
    aiResponse: AiJobResponse,
    status: JdStatus,
    approvalStatus: ApprovalStatus)

  datatype CreateJdRequest = CreateJdRequest(prompt: string)

  /** `UpdateJDRequest` as the approval handlers fill it: only `approvalStatus` is set. */
  datatype UpdateJdRequest = UpdateJdRequest(approvalStatus: ApprovalStatus)

  // ----- assessment.ts: the per-candidate init request -----

  datatype AssessmentInit = AssessmentInit(
    candidateId: string,
    jobId: string,
    role: string,
    skills: seq<string>,
    testType: string)

  // ----- interview.ts -----

  /** The statuses interview.ts allows. */
  const InterviewStatuses: seq<string> := ["scheduled", "completed", "cancelled", "rescheduled", "no_show"]

  /** An interview as the interview list page reads it (flattened names, `id`). */
  datatype InterviewRow = InterviewRow(
    id: string,
    candidateName: string,
    candidateEmail: string,
    jdTitle: string,
    interviewerName: Option<string>,
    meetingLink: Option<string>,
    location: string,
    status: string,
    rating: Option<int>)

  datatype UpdateInterviewStatusRequest = UpdateInterviewStatusRequest(status: string)

  // ----- offer.ts -----

  /** The statuses offer.ts allows. */
  const OfferStatuses: seq<string> := ["draft", "pending_approval", "approved", "sent", "accepted", "rejected"]

  datatype PersonRef = PersonRef(name: Option<string>, email: Option<string>)
  datatype JobRef = JobRef(title: Option<string>)
  datatype Salary = Salary(amount: Option<int>, currency: Option<string>)

  /** An offer as the offer list page reads it (populated candidate and job). */
  datatype OfferRow = OfferRow(
    id: string,
    candidate: Option<PersonRef>,
    job: Option<JobRef>,
    salary: Option<Salary>,
    status: string,
    createdAt: Option<string>,
    updatedAt: Option<string>)

  // ----- user.ts -----

  /** The declared roles are 'user' | 'hr' | 'employee'; the role is kept as any string. */
  datatype User = User(id: Option<string>, email: string, name: string, role: string)

  const DeclaredRoles: seq<string> := ["user", "hr", "employee"]
}
