/**
 * The job-description list (src/pages/dashboard/jd/JDList.tsx): which row actions the
 * approval status offers, what the approve, reject and delete handlers send and do
 * afterwards, and the two badge tables.
 */
module JdList {
  import opened Records

  /** The entries of a row's action menu, in menu order. */
  datatype RowAction = ViewDetails | Approve | Reject | PostToPlatforms | Delete

  function RowActions(a: ApprovalStatus): (r: seq<RowAction>)
    ensures |r| >= 2 && r[0] == ViewDetails && r[|r| - 1] == Delete
    ensures Approve in r <==> a == ApprovalPending
    ensures Reject in r <==> a == ApprovalPending
    ensures PostToPlatforms in r <==> a == Approved
    ensures forall i, j :: 0 <= i < j < |r| ==> r[i] != r[j]
    ensures a == ApprovalPending ==> r == [ViewDetails, Approve, Reject, Delete]
  {
    [ViewDetails] + (if a == ApprovalPending then [Approve, Reject] else [])
      + (if a == Approved then [PostToPlatforms] else []) + [Delete]
  }

  /** A rejected description can only be viewed or deleted. */
  lemma RejectedRowActions()
    ensures RowActions(Rejected) == [ViewDetails, Delete]
  {
  }

  /** The three handlers of the action menu. */
  datatype Handler = ApproveHandler | RejectHandler | DeleteHandler

  /** The `jdApi` call a handler awaits. */
  datatype JdCall = UpdateCall(id: string, body: UpdateJdRequest) | DeleteCall(id: string)

  datatype Notice = SuccessNotice(text: string) | ErrorNotice(text: string)

  /** What one handler run does: the call, the notification, and whether the list is refetched. */
  datatype HandlerRun = HandlerRun(call: JdCall, notice: Notice, refetch: bool)

  function SuccessText(h: Handler): string {
    match h
    case ApproveHandler => "JD approved successfully"
    case RejectHandler => "JD rejected"
    case DeleteHandler => "JD deleted successfully"
  }

  function ErrorText(h: Handler): string {
    match h
    case ApproveHandler => "Failed to approve JD"
    case RejectHandler => "Failed to reject JD"
    case DeleteHandler => "Failed to delete JD"
  }

  /**
   * `handleApprove`, `handleReject`, `handleDelete` for the row `id`, given whether the awaited
   * call succeeded: the list is refetched only after a successful call.
   */
  function RunHandler(h: Handler, id: string, succeeded: bool): (r: HandlerRun)
    ensures h == ApproveHandler ==> r.call == UpdateCall(id, UpdateJdRequest(Approved))
    ensures h == RejectHandler ==> r.call == UpdateCall(id, UpdateJdRequest(Rejected))
    ensures h == DeleteHandler ==> r.call == DeleteCall(id)
    ensures r.refetch <==> succeeded
    ensures succeeded ==> r.notice == SuccessNotice(SuccessText(h))
    ensures !succeeded ==> r.notice == ErrorNotice(ErrorText(h))
  {
    var call := match h
      case ApproveHandler => UpdateCall(id, UpdateJdRequest(Approved))
      case RejectHandler => UpdateCall(id, UpdateJdRequest(Rejected))
      case DeleteHandler => DeleteCall(id);
    if succeeded then HandlerRun(call, SuccessNotice(SuccessText(h)), true)
    else HandlerRun(call, ErrorNotice(ErrorText(h)), false)
  }

  /** A badge label is its status's wire value with the first letter capitalised. */
  predicate Capitalised(shown: string, value: string) {
    |shown| == |value| > 0 && 'a' <= value[0] <= 'z'
    && shown[0] as int == value[0] as int - 32 && shown[1..] == value[1..]
  }

  /** `getStatusBadge`: the label for each job status. */
  function StatusLabel(s: JdStatus): (shown: string)
    ensures Capitalised(shown, JdStatusText(s))
  {
    match s
    case Processing => "Processing"
    case Queued => "Queued"
    case Completed => "Completed"
    case Failed => "Failed"
  }

  /** `getApprovalBadge`: the label for each approval status. */
  function ApprovalLabel(a: ApprovalStatus): (shown: string)
    ensures Capitalised(shown, ApprovalStatusText(a))
  {
    match a
    case ApprovalPending => "Pending"
    case Approved => "Approved"
    case Rejected => "Rejected"
  }

  /** Each badge table gives each status its own label. */
  lemma BadgeLabelsDistinct(s: JdStatus, t: JdStatus, a: ApprovalStatus, b: ApprovalStatus)
    ensures StatusLabel(s) == StatusLabel(t) ==> s == t
    ensures ApprovalLabel(a) == ApprovalLabel(b) ==> a == b
  {
  }
}
