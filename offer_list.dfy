/**
 * The offer list (src/pages/dashboard/offer/OfferList.tsx): the Resend action, the status
 * badge, what a resend changes, and the fallbacks of the row's cells.
 */
module OfferList {
  import opened Wrappers
  import opened Records
  import Text

  /** `data?.offers ?? []`: an empty list stays as it is. */
  function Offers(offers: Option<seq<OfferRow>>): (r: seq<OfferRow>)
    ensures offers.Some? ==> r == offers.value
    ensures offers.None? ==> r == []
  {
    offers.GetOr([])
  }

  datatype ResendButton = NoResend | Resend(disabled: bool)

  /** Resend is offered on a sent offer, and disabled while a resend is pending. */
  function ResendButtonOf(offer: OfferRow, resendPending: bool): (b: ResendButton)
    ensures b.Resend? <==> offer.status == "sent"
    ensures b.Resend? ==> (b.disabled <==> resendPending)
  {
    if offer.status == "sent" then Resend(resendPending) else NoResend
  }

  datatype Notice = SuccessNotice(text: string) | ErrorNotice(text: string)

  /**
   * After a resend settles only a notification is shown; nothing refetches, so the list on
   * screen is the one before.
   */
  function AfterResend(offers: seq<OfferRow>, succeeded: bool): (r: (seq<OfferRow>, Notice))
    ensures r.0 == offers
    ensures r.1.SuccessNotice? <==> succeeded
    ensures succeeded ==> r.1.text == "Offer letter resent successfully"
    ensures !succeeded ==> r.1.text == "Failed to resend offer"
  {
    (offers, if succeeded then SuccessNotice("Offer letter resent successfully") else ErrorNotice("Failed to resend offer"))
  }

  const StatusLabels: map<string, string> := map[
    "draft" := "Draft", "sent" := "Sent", "accepted" := "Accepted",
    "rejected" := "Rejected", "expired" := "Expired"]

  /** `getStatusBadge`: a status outside the table shows as "Draft". */
  function StatusLabel(status: string): (shown: string)
    ensures status in StatusLabels ==> shown == StatusLabels[status]
    ensures status !in StatusLabels ==> shown == "Draft"
  {
    if status in StatusLabels then StatusLabels[status] else StatusLabels["draft"]
  }

  /** Two statuses offer records allow have no badge of their own and read as drafts. */
  lemma UntabledOfferStatusesShowDraft()
    ensures "pending_approval" in OfferStatuses && StatusLabel("pending_approval") == "Draft"
    ensures "approved" in OfferStatuses && StatusLabel("approved") == "Draft"
  {
  }

  /** The table's statuses keep different labels. */
  lemma StatusLabelsDistinct(a: string, b: string)
    requires a in StatusLabels && b in StatusLabels && a != b
    ensures StatusLabel(a) != StatusLabel(b)
  {
  }

  /** `n` in decimal, with a leading '-' when negative. */
  function IntText(n: int): (s: string)
    ensures n >= 0 ==> s == Text.NatToDecimal(n)
    ensures n < 0 ==> s == "-" + Text.NatToDecimal(-n)
  {
    if n >= 0 then Text.NatToDecimal(n) else "-" + Text.NatToDecimal(-n)
  }

  datatype DateCell = NoDate | DateOf(raw: string)

  datatype OfferCells = OfferCells(
    candidateName: string,
    candidateEmail: string,
    jobTitle: string,
    currency: string,
    amount: string,
    updated: DateCell,
    created: DateCell,
    status: string)

  function Field(ref: Option<PersonRef>, pick: PersonRef -> Option<string>): (r: string)
    ensures ref.Some? && Text.Truthy(pick(ref.value)) ==> r == pick(ref.value).value
    ensures !(ref.Some? && Text.Truthy(pick(ref.value))) ==> r == "N/A"
  {
    if ref.Some? then Text.OrElse(pick(ref.value), "N/A") else "N/A"
  }

  /** A present, non-empty date string is shown, anything else as "N/A". */
  function DateCellOf(d: Option<string>): (c: DateCell)
    ensures c.DateOf? <==> Text.Truthy(d)
    ensures c.DateOf? ==> c.raw == d.value
  {
    if Text.Truthy(d) then DateOf(d.value) else NoDate
  }

  /**
   * The row's cells: missing candidate and job fields show "N/A", a missing salary shows
   * currency "INR" and amount "0", and the status goes through the badge table.
   */
  function Cells(offer: OfferRow): (c: OfferCells)
    ensures offer.candidate.None? ==> c.candidateName == "N/A" && c.candidateEmail == "N/A"
    ensures offer.candidate.Some? && Text.Truthy(offer.candidate.value.name) ==> c.candidateName == offer.candidate.value.name.value
    ensures offer.candidate.Some? && !Text.Truthy(offer.candidate.value.name) ==> c.candidateName == "N/A"
    ensures offer.candidate.Some? && Text.Truthy(offer.candidate.value.email) ==> c.candidateEmail == offer.candidate.value.email.value
    ensures offer.candidate.Some? && !Text.Truthy(offer.candidate.value.email) ==> c.candidateEmail == "N/A"
    ensures offer.job.None? || !Text.Truthy(offer.job.value.title) ==> c.jobTitle == "N/A"
    ensures offer.job.Some? && Text.Truthy(offer.job.value.title) ==> c.jobTitle == offer.job.value.title.value
    ensures offer.salary.None? ==> c.currency == "INR" && c.amount == "0"
    ensures offer.salary.Some? ==> c.currency == Text.OrElse(offer.salary.value.currency, "INR")
    ensures offer.salary.Some? && offer.salary.value.amount.Some? ==> c.amount == IntText(offer.salary.value.amount.value)
    ensures offer.salary.Some? && offer.salary.value.amount.None? ==> c.amount == "0"
    ensures c.updated == DateCellOf(offer.updatedAt) && c.created == DateCellOf(offer.createdAt)
    ensures c.status == StatusLabel(offer.status)
  {
    var currency := if offer.salary.Some? then Text.OrElse(offer.salary.value.currency, "INR") else "INR";
    var amount := if offer.salary.Some? && offer.salary.value.amount.Some? then IntText(offer.salary.value.amount.value) else "0";
    OfferCells(
      Field(offer.candidate, (p: PersonRef) => p.name),
      Field(offer.candidate, (p: PersonRef) => p.email),
      if offer.job.Some? then Text.OrElse(offer.job.value.title, "N/A") else "N/A",
      currency, amount,
      DateCellOf(offer.updatedAt), DateCellOf(offer.createdAt),
      StatusLabel(offer.status))
  }
}
