/**
 * The interview list (src/pages/dashboard/interview/InterviewList.tsx): the list query, the
 * Mark Complete action, the rating and status cells, and the interviewer and location cells.
 */
module InterviewList {
  import opened Wrappers
  import opened Records
  import Text

  /** `{ role: 'interviewer', ...(selectedStatus ? { status: selectedStatus } : {}) }`. */
  function ListQuery(selectedStatus: string): (q: map<string, string>)
    ensures "role" in q && q["role"] == "interviewer"
    ensures "status" in q <==> selectedStatus != ""
    ensures "status" in q ==> q["status"] == selectedStatus
    ensures q.Keys <= {"role", "status"}
  {
    var base := map["role" := "interviewer"];
    if selectedStatus != "" then base["status" := selectedStatus] else base
  }

  /** `data?.interviews ?? []`: an empty list stays as it is. */
  function Interviews(interviews: Option<seq<InterviewRow>>): (r: seq<InterviewRow>)
    ensures interviews.Some? ==> r == interviews.value
    ensures interviews.None? ==> r == []
  {
    interviews.GetOr([])
  }

  /** The status update the Mark Complete button sends, offered only on a scheduled interview. */
  function MarkComplete(row: InterviewRow): (r: Option<(string, UpdateInterviewStatusRequest)>)
    ensures r.Some? <==> row.status == "scheduled"
    ensures r.Some? ==> r.value == (row.id, UpdateInterviewStatusRequest("completed"))
  {
    if row.status == "scheduled" then Some((row.id, UpdateInterviewStatusRequest("completed"))) else None
  }

  /** "Rating: r/5" appears on a completed interview with a truthy rating. */
  function ShownRating(row: InterviewRow): (r: Option<int>)
    ensures r.Some? <==> row.status == "completed" && row.rating.Some? && row.rating.value != 0
    ensures r.Some? ==> r == row.rating
  {
    if row.status == "completed" && row.rating.Some? && row.rating.value != 0 then row.rating else None
  }

  /** A row offers at most one of Mark Complete and the rating. */
  lemma MarkCompleteAndRatingExclusive(row: InterviewRow)
    ensures !(MarkComplete(row).Some? && ShownRating(row).Some?)
  {
  }

  const StatusLabels: map<string, string> := map[
    "scheduled" := "Scheduled", "in_progress" := "In Progress", "completed" := "Completed",
    "cancelled" := "Cancelled", "rescheduled" := "Rescheduled"]

  /** `getStatusBadge`: a status outside the table shows as "Scheduled". */
  function StatusLabel(status: string): (shown: string)
    ensures status in StatusLabels ==> shown == StatusLabels[status]
    ensures status !in StatusLabels ==> shown == "Scheduled"
  {
    if status in StatusLabels then StatusLabels[status] else StatusLabels["scheduled"]
  }

  /** 'no_show', which interview records allow, has no badge of its own. */
  lemma NoShowShownAsScheduled()
    ensures "no_show" in InterviewStatuses && StatusLabel("no_show") == StatusLabel("scheduled")
  {
  }

  /** The table's statuses keep different labels. */
  lemma StatusLabelsDistinct(a: string, b: string)
    requires a in StatusLabels && b in StatusLabels && a != b
    ensures StatusLabel(a) != StatusLabel(b)
  {
  }

  /** `interviewerName || 'Not assigned'`. */
  function InterviewerCell(row: InterviewRow): (r: string)
    ensures Text.Truthy(row.interviewerName) ==> r == row.interviewerName.value
    ensures !Text.Truthy(row.interviewerName) ==> r == "Not assigned"
  {
    Text.OrElse(row.interviewerName, "Not assigned")
  }

  datatype LocationCell = JoinMeeting(link: string) | Location(text: string)

  /** A meeting link, when there is one, replaces the location. */
  function LocationCellOf(row: InterviewRow): (r: LocationCell)
    ensures r.JoinMeeting? <==> Text.Truthy(row.meetingLink)
    ensures r.JoinMeeting? ==> r.link == row.meetingLink.value
    ensures r.Location? ==> r.text == row.location
  {
    if Text.Truthy(row.meetingLink) then JoinMeeting(row.meetingLink.value) else Location(row.location)
  }
}
