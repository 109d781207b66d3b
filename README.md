# Hire-Flow frontend: the decision logic of the recruiting pages, in Dafny

Hire-Flow's frontend is a React application. Recruiters use it to:

- generate and approve job descriptions;
- screen applicants with an AI score;
- send MCQ assessments;
- schedule interviews;
- track offers.

Candidates use it to sit a timed test. Most of the code fetches and renders data. This project models the parts that decide something, one Dafny module per source file:

- **TestScreen** (`test_screen.dfy`): the timed test session as a class. Its state is the loaded test, whether it has started, the question on screen, the answers, the countdown, the answers the running interval captured, the pending flag, and the submissions made so far. It has methods for the tick, answering, navigation and submission. The submission formatter and the `m:ss` clock are pure functions.
- **CandidateList** (`candidate_list.dfy`): covers the candidate screening rules:
  - the ≥ 70 filter;
  - the stable sort, highest score first;
  - the guards in front of the shortlisting and assessment requests;
  - the assessment init requests;
  - the fulfilled/rejected tally and its message;
  - the skills and status cells.

  A small class holds the page's selectors and its profile dialog.
- **AssessmentList** (`assessment_list.dfy`): the interview-scheduling request, built by a method step by step as the source builds its payload, plus the three summary counts.
- **Auth** (`auth.dfy`): the role flags `useAuth` derives from an arbitrary role string.
- **AssessmentDetail**, **JdList**, **InterviewList**, **OfferList** (`assessment_detail.dfy`, `jd_list.dfy`, `interview_list.dfy`, `offer_list.dfy`): the status-gated actions, badge tables and display fallbacks.
- **CreateJd** (`create_jd.dfy`): prompt validation and the generated output.
- **ResumeApi**, **InterviewApi** (`resume_api.dfy`, `interview_api.dfy`): URL choice, the envelope unwrap, and `list`'s parameter building.
- Shared modules:
  - `Wrappers`: `Option`/`Result`.
  - `Text`: decimal rendering with a proved parse back, two-digit padding, and JavaScript `||` on optional strings.
  - `Counting`: `filter(p).length` with its reference definition as a set of positions.
  - `Http`: the verb, path and payload of one request.
  - `Records`: the backend records.
  - `SkillBadges`: the "first three + `+k`" skills truncation.

Conventions used throughout:

- An absent key or value is `None`.
- JavaScript truthiness is written out: a string is truthy when present and non-empty, a number when present and non-zero.
- Asynchronous outcomes are inputs, for example whether a request succeeded, or the `Promise.allSettled` results.
- The clock is a discrete `Tick`.

## Model

| member | source | states |
|---|---|---|
| TestScreen.AnswerFor | src/pages/candidate/TestScreen.tsx:68 | a recorded answer is used as it is (an empty one stays empty); an unanswered question gets "" |
| TestScreen.FormatSubmission | src/pages/candidate/TestScreen.tsx:66-69 | exactly one response per question, in question order, each carrying the question's id and its recorded answer or "" |
| TestScreen.HandleSubmit | src/pages/candidate/TestScreen.tsx:63-72 | nothing is submitted iff no test is loaded; otherwise one response per question, in question order, each carrying that question's id and its recorded answer or "" |
| TestScreen.SubmissionCounts | src/pages/candidate/TestScreen.tsx:63-71 | with distinct question ids, N questions with K answered give exactly K responses with a recorded answer and N−K with none, and the unanswered ones carry "" |
| TestScreen.FormatTime | src/pages/candidate/TestScreen.tsx:74-78 | the clock reads digits ":" two digits, with no leading zero in the minutes; the seconds field is below 60, and minutes·60 + seconds equals the input |
| TestScreen.FormatTimeAtStart | src/pages/candidate/TestScreen.tsx:23 | the starting 3600 seconds show as "60:00" |
| TestScreen.TestSession.constructor | src/pages/candidate/TestScreen.tsx:21-24 | the session starts on question 0, with no answers, 3600 seconds left, not started, and no timer |
| TestScreen.TestSession.Load | src/pages/candidate/TestScreen.tsx:32 | the fetched test becomes the session's test; nothing else changes |
| TestScreen.TestSession.Start | src/pages/candidate/TestScreen.tsx:47-48 | starting a test that has questions runs the timer, which captures the answers of that moment; nothing else changes |
| TestScreen.TestSession.Tick | src/pages/candidate/TestScreen.tsx:50-58 | above 1 the clock drops by exactly 1; at 1 or below it becomes 0 and the captured answers are submitted again, on every such tick; the clock never goes negative |
| TestScreen.TestSession.TickAsIntended | src/pages/candidate/TestScreen.tsx:47-61 | the corrected tick: the clock never rises, the latest answers are submitted once on reaching 0, and a clock at 0 submits nothing more |
| TestScreen.TestSession.Answer | src/pages/candidate/TestScreen.tsx:202-204 | sets the answer of the question on screen and overwrites any earlier one; every other key is unchanged |
| TestScreen.TestSession.Previous | src/pages/candidate/TestScreen.tsx:227 | moves back one question, staying at 0 on the first question |
| TestScreen.TestSession.Next | src/pages/candidate/TestScreen.tsx:234-240 | moves forward one question before the last one and stays on the last |
| TestScreen.TestSession.GoTo | src/pages/candidate/TestScreen.tsx:265-275 | the navigator jumps to any question index in range |
| TestScreen.TestSession.SubmitManually | src/pages/candidate/TestScreen.tsx:246-253 | submits the latest answers only on the last question and only when no submission is pending |
| TestScreen.TestSession.SubmitSettled | src/pages/candidate/TestScreen.tsx:32-45 | a settled submission clears the pending flag and keeps the answers |
| TestScreen.TestSession.AnsweredCount | src/pages/candidate/TestScreen.tsx:97 | the answered count is the number of answer keys and never exceeds the number of distinct question ids |
| TestScreen.AutoSubmitWitness | src/pages/candidate/TestScreen.tsx:47-61 | a one-question test answered "A" after Start is submitted with answer "" when time runs out, and again on the next tick |
| Text.PadTwo | src/pages/candidate/TestScreen.tsx:77 | `padStart(2, '0')` of a number below 100 is two digits that read back as that number |
| Text.DecimalRoundTrip | src/pages/candidate/TestScreen.tsx:77 | the decimal rendering of a number reads back as that number |
| Counting.CountWhere | src/pages/dashboard/resume/CandidateList.tsx:98-99 | `filter(p).length` is at most the length and equals the number of positions satisfying p |
| Counting.CountComplement | src/pages/dashboard/resume/CandidateList.tsx:98-99 | counting p and counting not-p add up to the length |
| CandidateList.CandidatesRequest | src/pages/dashboard/resume/CandidateList.tsx:53-63 | the applied tab fetches applicants and the shortlisted tab fetches shortlisting entries, passing the selected id, "all" included |
| CandidateList.AllSelectedShortlistedPath | src/pages/dashboard/resume/CandidateList.tsx:56-61 | with "all" selected, the applied tab requests the unfiltered path, but the shortlisted tab requests a path for an id "all" |
| CandidateList.KeepHighScoring | src/pages/dashboard/resume/CandidateList.tsx:167 | an entry is kept iff its AI score is present, non-zero and ≥ 70; each kept entry occurs exactly as often as in the input and every other entry not at all |
| CandidateList.KeepHighScoringScoreOrder | src/pages/dashboard/resume/CandidateList.tsx:167 | for each score ≥ 70 the kept entries of that score are the input's entries of that score, in input order; no entry of a lower score is kept |
| CandidateList.InsertKeepsSorted | src/pages/dashboard/resume/CandidateList.tsx:168 | one insertion step of the stable sort keeps the list ordered by score, highest first |
| CandidateList.InsertKeepsScoreOrder | src/pages/dashboard/resume/CandidateList.tsx:168 | one insertion step puts the new entry ahead of the equal-score entries without reordering them |
| CandidateList.SortByScore | src/pages/dashboard/resume/CandidateList.tsx:168 | the result is ordered by score (highest first) and is a permutation of the input; entries with equal scores keep their relative order (the sort is stable) |
| CandidateList.ProcessedCandidates | src/pages/dashboard/resume/CandidateList.tsx:164-170 | the applied list passes through unchanged; absent data gives an empty list; the shortlisted list holds exactly the high-scoring entries, sorted, as a permutation of the filter's result |
| CandidateList.ShortlistedScoresAtLeast70 | src/pages/dashboard/resume/CandidateList.tsx:165-168 | every entry shown on the shortlisted tab has an AI evaluation with a score ≥ 70 |
| CandidateList.ShortlistedTabShowsHighScoringInOrder | src/pages/dashboard/resume/CandidateList.tsx:164-168 | the shortlisted tab shows each high-scoring fetched entry as often as it was fetched and nothing else, and entries of equal score in fetched order |
| CandidateList.HandleShortlist | src/pages/dashboard/resume/CandidateList.tsx:114-120 | sends `{jdId}` iff the selection is non-empty and not "all"; otherwise only the error message |
| CandidateList.HandleSendAssessments | src/pages/dashboard/resume/CandidateList.tsx:122-139 | the checks for the tab, then a non-empty list, then a specific JD, in that order; the first failing one decides the message, and only when all pass is the whole list sent |
| CandidateList.FindJd | src/pages/dashboard/resume/CandidateList.tsx:78 | finds the first description with the id, or reports that none has it |
| CandidateList.InitRequests | src/pages/dashboard/resume/CandidateList.tsx:83-93 | one init request per candidate, in order, each with that candidate's id, the description's id, title and skills, and "MCQ" |
| CandidateList.InitAssessments | src/pages/dashboard/resume/CandidateList.tsx:76-96 | fails with "Job description not found" before any request iff the selected id is not among the fetched descriptions; otherwise one request per candidate, in order, carrying the title and skills of the first fetched description with that id |
| CandidateList.TallyOf | src/pages/dashboard/resume/CandidateList.tsx:97-99 | successes plus failures equal the number of settled results, each counted by its reference definition |
| CandidateList.PluralSuffix | src/pages/dashboard/resume/CandidateList.tsx:102 | "candidate" is pluralised exactly when the count is not 1 |
| CandidateList.FailedNote | src/pages/dashboard/resume/CandidateList.tsx:102-104 | " (k failed)" appears exactly when k > 0 |
| CandidateList.TallyMessage | src/pages/dashboard/resume/CandidateList.tsx:98-105 | the notification starts "Assessment initialized for ", then a decimal that reads back as the number of fulfilled requests, then " candidate", followed by "s" iff that number is not 1; it ends there when nothing was rejected, and otherwise ends in " (k failed)" with k the number of rejected requests |
| CandidateList.TallyMessageInjective | src/pages/dashboard/resume/CandidateList.tsx:98-105 | two outcomes with the same notification have the same success and failure counts: the notification loses neither count |
| CandidateList.TallyCoversCandidates | src/pages/dashboard/resume/CandidateList.tsx:83-99 | when every request settled, successes plus failures equal the number of candidates sent |
| SkillBadges.Truncate | src/pages/dashboard/resume/CandidateList.tsx:304-312 | shows the first min(3, n) skills as a prefix, plus a "+(n−3)" badge iff n > 3; shown plus hidden make n |
| CandidateList.SkillsCellOf | src/pages/dashboard/resume/CandidateList.tsx:302-317 | "-" iff the skills are absent or empty, otherwise the truncated badges |
| CandidateList.StatusLabel | src/pages/dashboard/resume/CandidateList.tsx:170-183 | a missing, empty or unknown status shows as "New"; a known one shows its table label |
| CandidateList.StatusLabelsDistinct | src/pages/dashboard/resume/CandidateList.tsx:171-180 | the eight statuses have eight different labels |
| CandidateList.CandidateListView.constructor | src/pages/dashboard/resume/CandidateList.tsx:43-46 | the page opens on "all", the applied tab, and no profile |
| CandidateList.CandidateListView.SelectJd | src/pages/dashboard/resume/CandidateList.tsx:195 | the selector changes only the selected description |
| CandidateList.CandidateListView.SelectTab | src/pages/dashboard/resume/CandidateList.tsx:216-227 | the tab buttons change only the tab |
| CandidateList.CandidateListView.ViewProfile | src/pages/dashboard/resume/CandidateList.tsx:141-161 | the profile dialog opens on the candidate iff the record has a resume key; otherwise the state is unchanged |
| AssessmentList.ResolveJobId | src/pages/dashboard/assessment/AssessmentList.tsx:44 | the job id is the populated object's id, else the field itself; it is unresolved iff the field is missing or the empty string |
| AssessmentList.UnresolvedFieldText | src/pages/dashboard/assessment/AssessmentList.tsx:51 | the error message shows a missing field as `undefined` and an empty one as `""` |
| AssessmentList.JobIdMissingMessage | src/pages/dashboard/assessment/AssessmentList.tsx:46-53 | the thrown message is exactly "Job ID not found in candidate data.\nCandidate: ", the candidate's name (or "Unknown" when the candidate or its name is missing or empty), "\nJob ID Field: " and the field's text |
| AssessmentList.ScheduleInterviews | src/pages/dashboard/assessment/AssessmentList.tsx:28-70 | an empty shortlist, an unresolved job id of the first entry, or a single request without a candidate id each throw their message before any request; otherwise one POST to /is/create whose payload holds the first entry's job id, no interviewers, "online", and either `batch: true` or the candidate id |
| AssessmentList.TotalCount | src/pages/dashboard/assessment/AssessmentList.tsx:25 | the total is the shortlist's length, 0 without a response |
| AssessmentList.CompletedCount | src/pages/dashboard/assessment/AssessmentList.tsx:130 | counts the entries recommended 'yes' or 'strong_yes', as a number of positions |
| AssessmentList.BelowSeventyCount | src/pages/dashboard/assessment/AssessmentList.tsx:143 | counts the entries with a truthy percentage below 70, as a number of positions |
| AssessmentList.CompletedCountStep | src/pages/dashboard/assessment/AssessmentList.tsx:130 | adding an entry raises "Completed" by one exactly when it is recommended 'yes' or 'strong_yes' |
| AssessmentList.BelowSeventyCountStep | src/pages/dashboard/assessment/AssessmentList.tsx:143 | adding an entry raises "Below 70%" by one exactly when its percentage is present, non-zero and below 70; a missing or zero percentage never counts |
| Auth.UseAuth | src/hooks/useAuth.ts:4-17 | the store's four fields pass through; with no user all flags are false; isHR iff the role is 'hr' or 'admin'; each other flag iff the role equals its name |
| Auth.AdminIsHR | src/hooks/useAuth.ts:12-13 | isAdmin implies isHR |
| Auth.AtMostOneRoleFlag | src/hooks/useAuth.ts:12-15 | for any role string at most one of isHR, isCandidate and isInterviewer holds |
| Auth.DeclaredRolesFlags | src/types/user.ts:7 | with a declared role ('user', 'hr', 'employee'), isAdmin, isCandidate and isInterviewer are false, and isHR holds iff the role is 'hr' |
| AssessmentDetail.RecommendationColor | src/pages/dashboard/assessment/AssessmentDetail.tsx:43-58 | the colour of each of the five recommendations, and gray for every other string |
| AssessmentDetail.RecommendationColorsDistinct | src/pages/dashboard/assessment/AssessmentDetail.tsx:43-58 | the five recommendations get five different colours, none of them gray |
| AssessmentDetail.ReplaceFirstUnderscore | src/pages/dashboard/assessment/AssessmentDetail.tsx:138 | only the first underscore becomes a space; every other character is kept |
| AssessmentDetail.ToUpper | src/pages/dashboard/assessment/AssessmentDetail.tsx:138 | uppercases character by character, keeping the length |
| AssessmentDetail.Badge | src/pages/dashboard/assessment/AssessmentDetail.tsx:137-138 | a missing or empty recommendation shows "PENDING" in the neutral colour; otherwise the colour is the recommendation's and the text has the same length, a space at the first underscore and every other character uppercased |
| AssessmentDetail.StrongYesBadge | src/pages/dashboard/assessment/AssessmentDetail.tsx:137-138 | 'strong_yes' shows "STRONG YES" in green |
| AssessmentDetail.OnlyFirstUnderscoreReplaced | src/pages/dashboard/assessment/AssessmentDetail.tsx:138 | "a_b_c" reads "A B_C" |
| AssessmentDetail.PassFail | src/pages/dashboard/assessment/AssessmentDetail.tsx:152-156 | "Passed" iff both the percentage and the passing score are present and the percentage is at least the passing score |
| AssessmentDetail.DisplayedPassingScore | src/pages/dashboard/assessment/AssessmentDetail.tsx:124 | the card shows the passing score, or 80 when it is missing or 0 |
| AssessmentDetail.VerdictIgnoresDisplayedDefault | src/pages/dashboard/assessment/AssessmentDetail.tsx:124-156 | a 95% result without a passing score shows "Failed", although it beats the 80 displayed |
| AssessmentDetail.SectionPercentage | src/pages/dashboard/assessment/AssessmentDetail.tsx:265 | 0 when the maximum is absent or 0; otherwise the percentage times the maximum equals 100 times the marks obtained |
| AssessmentDetail.SectionTitle | src/pages/dashboard/assessment/AssessmentDetail.tsx:258 | the section's name, or "Section " followed by the 1-based index in decimal without a leading zero |
| JdList.RowActions | src/pages/dashboard/jd/JDList.tsx:160-187 | the menu always starts with View Details and ends with Delete; Approve and Reject appear iff pending, Approve first; Post iff approved; no entry repeats |
| JdList.RejectedRowActions | src/pages/dashboard/jd/JDList.tsx:165-182 | a rejected description offers only View Details and Delete |
| JdList.RunHandler | src/pages/dashboard/jd/JDList.tsx:58-86 | Approve and Reject send an update of the approval status for the row's id, and Delete a delete; the list is refetched iff the call succeeded, and the notice says which |
| JdList.StatusLabel | src/pages/dashboard/jd/JDList.tsx:37-46 | each job status is labelled with its wire value, first letter capitalised |
| JdList.ApprovalLabel | src/pages/dashboard/jd/JDList.tsx:48-57 | each approval status is labelled with its wire value, first letter capitalised |
| JdList.BadgeLabelsDistinct | src/pages/dashboard/jd/JDList.tsx:37-57 | the four job statuses, and the three approval statuses, each get their own label |
| InterviewList.ListQuery | src/pages/dashboard/interview/InterviewList.tsx:36 | the query always has role 'interviewer' and has `status` iff the filter is non-empty; no other key |
| InterviewList.Interviews | src/pages/dashboard/interview/InterviewList.tsx:39 | a missing list becomes empty; a present one, even empty, is kept |
| InterviewList.MarkComplete | src/pages/dashboard/interview/InterviewList.tsx:147-160 | offered iff the status is 'scheduled'; it sends `{status: 'completed'}` for the row's id |
| InterviewList.ShownRating | src/pages/dashboard/interview/InterviewList.tsx:162-166 | the rating is shown iff the interview is completed and the rating is present and non-zero |
| InterviewList.MarkCompleteAndRatingExclusive | src/pages/dashboard/interview/InterviewList.tsx:147-166 | a row never shows both Mark Complete and a rating |
| InterviewList.StatusLabel | src/pages/dashboard/interview/InterviewList.tsx:53-62 | a status outside the table shows as "Scheduled" |
| InterviewList.NoShowShownAsScheduled | src/types/interview.ts:12 | 'no_show' is an allowed status, yet it is shown as "Scheduled" |
| InterviewList.StatusLabelsDistinct | src/pages/dashboard/interview/InterviewList.tsx:54-60 | the table's statuses have different labels |
| InterviewList.InterviewerCell | src/pages/dashboard/interview/InterviewList.tsx:129 | the interviewer's name, or "Not assigned" |
| InterviewList.LocationCellOf | src/pages/dashboard/interview/InterviewList.tsx:131-143 | a meeting link replaces the location iff it is truthy |
| OfferList.Offers | src/pages/dashboard/offer/OfferList.tsx:30 | a missing list becomes empty; a present one is kept |
| OfferList.ResendButtonOf | src/pages/dashboard/offer/OfferList.tsx:123-133 | Resend is offered iff the status is 'sent', and is disabled iff a resend is pending |
| OfferList.AfterResend | src/pages/dashboard/offer/OfferList.tsx:32-40 | a settled resend shows a notice and leaves the list unchanged |
| OfferList.StatusLabel | src/pages/dashboard/offer/OfferList.tsx:42-51 | a status outside the table shows as "Draft" |
| OfferList.UntabledOfferStatusesShowDraft | src/types/offer.ts:12 | the allowed statuses 'pending_approval' and 'approved' show as "Draft" |
| OfferList.StatusLabelsDistinct | src/pages/dashboard/offer/OfferList.tsx:43-49 | the table's statuses have different labels |
| OfferList.IntText | src/pages/dashboard/offer/OfferList.tsx:107 | the amount in decimal, with a sign when negative |
| OfferList.DateCellOf | src/pages/dashboard/offer/OfferList.tsx:111 | a date is shown iff present and non-empty, otherwise "N/A" |
| OfferList.Cells | src/pages/dashboard/offer/OfferList.tsx:98-116 | a candidate's name and email each show when present and non-empty and "N/A" otherwise (also when the candidate is missing); likewise the job title; a missing salary shows "INR" and "0", a missing currency "INR"; the status goes through the badge table |
| CreateJd.Submit | src/pages/dashboard/jd/CreateJD.tsx:25-27 | a prompt is accepted iff it has at least 20 characters and is then sent as exactly `{prompt}`; otherwise the length message |
| CreateJd.InitialPromptRejected | src/pages/dashboard/jd/CreateJD.tsx:37-39 | the initial empty prompt is rejected |
| CreateJd.ValidityMonotone | src/pages/dashboard/jd/CreateJD.tsx:26 | lengthening an accepted prompt keeps it accepted |
| CreateJd.GeneratedAfter | src/pages/dashboard/jd/CreateJD.tsx:42-51 | the output is replaced by the result on success and left as it was on failure |
| CreateJd.SubmitEnabled | src/pages/dashboard/jd/CreateJD.tsx:102 | the button is enabled iff no generation is pending |
| ResumeApi.GetAllCandidates | src/api/resumeApi.ts:14-15 | a GET of /rs/getAllCandidates/ + id for a truthy id, else /rs/getAllCandidates/all |
| ResumeApi.GetShortlistedCandidates | src/api/resumeApi.ts:20-25 | a GET of /rs/getAllShortListedCandidates/ + id for a truthy id, else the same path with no suffix |
| ResumeApi.AllMatchesAbsentForApplied | src/api/resumeApi.ts:15 | for applicants, "all" and no id request the same path |
| ResumeApi.AllDiffersFromAbsentForShortlisted | src/api/resumeApi.ts:23-25 | for shortlisting entries, "all" and no id request different paths |
| ResumeApi.Unwrap | src/api/resumeApi.ts:17 | an object's `candidates` list when it has one (even empty), otherwise the body as received |
| ResumeApi.UnwrapIdempotent | src/api/resumeApi.ts:28 | unwrapping twice is the same as unwrapping once |
| ResumeApi.Shortlist | src/api/resumeApi.ts:9-11 | `shortlist` posts the request unchanged to /rs/shortlist |
| InterviewApi.List | src/api/interviewApi.ts:18-42 | a GET of /is/list; a user id gives exactly `user_id`, plus `role` iff a truthy role is given; an options object is copied as it is and the role argument ignored; null or undefined gives no parameters |
| InterviewApi.UpdateStatus | src/api/interviewApi.ts:44-50 | a PUT of exactly the given body to /is/status/ followed by the id |
| InterviewApi.UpdateStatusTargetsOneInterview | src/api/interviewApi.ts:48 | different ids give different status paths |

## Left out

- Real time and asynchrony: `setInterval` is the discrete `TestSession.Tick`. React Query caching, loading and error states, retries and `enabled` flags are not modelled. Every request's outcome is an input, and the 1500 ms redirect after submitting is not modelled.
- TestScreen.TestSession.Start: a loaded test with no questions is excluded. In the source the page crashes on Start, because it reads the id of the missing first question (TestScreen.tsx:95, 187), so the timer never runs and nothing is submitted.
- TestScreen.TestSession.Load: the test is loaded once. A refetch that replaces the test with a new object (re-running the timer effect and recapturing the answers) is not modelled.
- Toasts beyond their texts, navigation, and the DOM-built report download in AssessmentDetail.tsx are browser I/O.
- Number formatting: `toFixed`, `toLocaleString` and `toLocaleDateString` are not modelled. OfferList.IntText renders the plain decimal with no grouping separators; dates are carried as their raw strings. Percentages, marks and scores are exact reals or integers, not IEEE doubles. An AI score is an integer.
- InterviewList.ShownRating: a completed interview with rating 0 shows no rating in the model, whereas `interview.rating && (…)` at InterviewList.tsx:162 renders the number 0 as a stray "0"; the model leaves out that rendering artefact.
- AssessmentDetail.ToUpper: uppercases ASCII letters only, not the full Unicode `toUpperCase`.
- CreateJd.Submit: counts Dafny characters, whereas zod counts UTF-16 code units, which differ for characters outside the Basic Multilingual Plane.
- OfferList.IntText: offer amounts are whole numbers, written in plain decimal; a fractional amount and the grouping separators of `toLocaleString` are not modelled.
- JdList.StatusLabel: job and approval statuses are closed datatypes, so a status outside the badge tables cannot be represented; in the source such a status makes the lookup yield `undefined` and rendering that row fails.
- AssessmentList.UnresolvedFieldText: covers only the two values that reach the error (missing and ""), not `JSON.stringify` in general.
- null and undefined are both `None`. Where the source treats them differently (`??` versus `||`, or `typeof null === "object"` in `list`), the model follows the undefined case, except in InterviewApi.List, where `NoArg` covers both.
- Object-prototype keys in the badge lookups (e.g. a status "toString") are not modelled: every lookup is a finite map.
- The `isApplied = 'resume' in candidate` row split, the "Match score" and "Matched skills" cells, and the profile dialog's contents are rendering only.
- The badge class names of the list pages are not modelled; only the labels are. The recommendation colours of the detail page are kept.
- The JD skills cell (JDList.tsx:137-146) is the same truncation as SkillBadges.Truncate.
- The `jds || body` unwrap in src/api/jdApi.ts is the same rule as ResumeApi.Unwrap.
- The other API helpers, the axios client and its interceptors, the route table and its guard, the layouts, the sidebar, the shared components and the hard-coded dashboards have no logic beyond one call or markup. The guard's module, src/router/ProtectedRoute, is not part of this model.

## Findings

| source | as written | input that shows it | evidently intended | confidence | as-written member | corrected member |
|---|---|---|---|---|---|---|
| src/pages/candidate/TestScreen.tsx:47-61 | the interval's `handleSubmit` is the one from the render where the effect last ran (deps `[test, testStarted]`), so the automatic submission sends the answers as they were at Start | a one-question test answered "A" right after Start, left to time out: the automatic submission sends answer "" | the automatic submission sends the answers recorded so far | not executed | TestScreen.AutoSubmitWitness | TestScreen.TestSession.TickAsIntended |
| src/pages/candidate/TestScreen.tsx:50-58 | the interval is not cleared when the clock reaches 0, so every later tick calls `handleSubmit` again | the same test: the tick after time-out submits a second time | one automatic submission when the clock reaches 0 | not executed | TestScreen.TestSession.Tick | TestScreen.TestSession.TickAsIntended |
