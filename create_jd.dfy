/**
 * Job-description generation (src/pages/dashboard/jd/CreateJD.tsx): the prompt's validation,
 * the request a valid prompt sends, and how the shown output changes when a request settles.
 */
module CreateJd {
  import opened Wrappers
  import opened Records

  const MinPromptLength: nat := 20
  const PromptTooShort: string := "Please provide a detailed description (at least 20 characters)"
  const InitialPrompt: string := ""

  /** The form schema, then `onSubmit`: a prompt of at least 20 characters is sent as `{prompt}`. */
  function Submit(prompt: string): (r: Result<CreateJdRequest, string>)
    ensures r.Success? <==> |prompt| >= MinPromptLength
    ensures r.Success? ==> r.value == CreateJdRequest(prompt)
    ensures r.Failure? ==> r.error == PromptTooShort
  {
    if |prompt| >= MinPromptLength then Success(CreateJdRequest(prompt)) else Failure(PromptTooShort)
  }

  /** The form as first shown cannot be submitted. */
  lemma InitialPromptRejected()
    ensures Submit(InitialPrompt) == Failure(PromptTooShort)
  {
  }

  /** Lengthening a valid prompt keeps it valid. */
  lemma ValidityMonotone(prompt: string, more: string)
    requires Submit(prompt).Success?
    ensures Submit(prompt + more).Success?
  {
  }

  /** The generated description on screen after a request settles: replaced only on success. */
  function GeneratedAfter(previous: Option<JobDescription>, outcome: Result<JobDescription, string>)
    : (r: Option<JobDescription>)
    ensures outcome.Success? ==> r == Some(outcome.value)
    ensures outcome.Failure? ==> r == previous
  {
    match outcome
    case Success(jd) => Some(jd)
    case Failure(_) => previous
  }

  /** The submit button is disabled while a generation is pending. */
  function SubmitEnabled(pending: bool): (enabled: bool)
    ensures enabled <==> !pending
  {
    !pending
  }
}
