/** The business rules of internal/domain/domain.go: version states, invoice states, roles. */
module Domain {
  import opened Basics

  datatype Role = Owner | Staff | Client {
    predicate IsStaff() { Owner? || Staff? }
  }

  datatype VersionState = Draft | Shared | RevisionRequested | Approved | Withdrawn {
    /** No transition leaves these states. */
    predicate Final() { RevisionRequested? || Approved? || Withdrawn? }

    /** Draft, then shared, then final: the order in which a version can only move forward. */
    function Rank(): nat { if Draft? then 0 else if Shared? then 1 else 2 }
  }

  /** May role move a version from one state to another? */
  predicate Transition(from: VersionState, to: VersionState, role: Role) {
    if (from.Draft? && to.Shared?) || (from.Draft? && to.Withdrawn?) || (from.Shared? && to.Withdrawn?) then role.IsStaff()
    else if (from.Shared? && to.RevisionRequested?) || (from.Shared? && to.Approved?) then role.Client?
    else false
  }

  /** After the newest state: None refuses a new draft, Some says whether a reason is needed. */
  function NewVersion(latest: Option<VersionState>): Option<bool> {
    match latest
    case None | Some(RevisionRequested) | Some(Withdrawn) => Some(false)
    case Some(Approved) => Some(true)
    case Some(Draft) | Some(Shared) => None
  }

  datatype InvoiceStatus = InvoiceDraft | InvoiceSent | InvoicePaid | InvoiceCanceled {
    function Rank(): nat { if InvoiceDraft? then 0 else if InvoiceSent? then 1 else 2 }
  }

  predicate InvoiceTransition(from: InvoiceStatus, to: InvoiceStatus) {
    || (from.InvoiceDraft? && (to.InvoiceSent? || to.InvoiceCanceled?))
    || (from.InvoiceSent? && (to.InvoicePaid? || to.InvoiceCanceled?))
  }

  /** Every permitted move goes strictly forward, so no state is ever entered twice. */
  lemma ForwardOnly(from: VersionState, to: VersionState, role: Role, a: InvoiceStatus, b: InvoiceStatus)
    ensures Transition(from, to, role) ==> from.Rank() < to.Rank() && !from.Final()
    ensures InvoiceTransition(a, b) ==> a.Rank() < b.Rank()
  {
  }

  /** All the moves there are, with the roles that may make them. */
  lemma EveryMove(from: VersionState, to: VersionState, role: Role)
    ensures Transition(from, to, role) <==> (from, to, role) in {
      (Draft, Shared, Owner), (Draft, Shared, Staff), (Draft, Withdrawn, Owner), (Draft, Withdrawn, Staff),
      (Shared, Withdrawn, Owner), (Shared, Withdrawn, Staff), (Shared, RevisionRequested, Client), (Shared, Approved, Client)}
  {
  }

  /** All the status changes of an invoice, and what may follow each state of the newest version. */
  lemma EveryStatusChange(from: InvoiceStatus, to: InvoiceStatus, latest: Option<VersionState>, reasonOk: bool)
    ensures InvoiceTransition(from, to) <==> (from, to) in {
      (InvoiceDraft, InvoiceSent), (InvoiceDraft, InvoiceCanceled), (InvoiceSent, InvoicePaid), (InvoiceSent, InvoiceCanceled)}
    ensures (NewVersion(latest).Some? && (NewVersion(latest).value ==> reasonOk)) <==>
      latest in {None, Some(RevisionRequested), Some(Withdrawn)} || (latest == Some(Approved) && reasonOk)
  {
  }
}
