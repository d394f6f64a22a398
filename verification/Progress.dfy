/**
 * Versions and invoices only move forward: no transaction of internal/web takes one back to a state
 * it left, and nothing about a version but its state ever changes.
 */
module Progress {
  import opened Basics
  import opened Timestamps
  import opened JobTable
  import opened Domain
  import opened Schema
  import opened Requests
  import opened Identity
  import opened Approval

  /** Only the state of a version ever changes, and never backwards or out of a final state. */
  predicate Later(a: Version, b: Version) {
    && b == a.(state := b.state)
    && (a.state == b.state || (!a.state.Final() && a.state.Rank() < b.state.Rank()))
  }

  /** Each version and invoice is new, unchanged, or moved forward out of a state that is not final. */
  ghost predicate Forward(db: Db, db': Db, drawn: set<Id>) {
    && (forall v | v in db'.versions && v !in drawn ::
          v in db.versions && Later(db.versions[v], db'.versions[v]))
    && (forall i | i in db'.invoices && i !in drawn ::
          i in db.invoices && db.invoices[i].status.Rank() <= db'.invoices[i].status.Rank())
  }

  lemma SameForward(db: Db, db': Db, drawn: set<Id>)
    requires forall v | v in db'.versions :: v in db.versions && db'.versions[v] == db.versions[v]
    requires forall i | i in db'.invoices :: i in db.invoices && db'.invoices[i].status == db.invoices[i].status
    ensures Forward(db, db', drawn)
  {
  }

  lemma CreateVersionForward(db: Db, d: Id, id: Id, up: Option<Schema.Upload>, reasonOk: bool, drawn: set<Id>)
    requires id in drawn
    ensures Forward(db, CreateVersion(db, d, id, up, reasonOk).Else(db), drawn)
  {
    hide NewestOf;
  }

  lemma MoveForward(db: Db, v: Id, from: VersionState, to: VersionState, drawn: set<Id>)
    requires !from.Final() && from.Rank() < to.Rank()
    ensures Forward(db, MoveVersion(db, v, from, to).Else(db), drawn)
  {
  }

  lemma DecideForward(db: Db, v: Id, to: VersionState, id: Id, drawn: set<Id>)
    requires Answered(to)
    ensures Forward(db, Decide(db, v, to, id).Else(db), drawn)
  {
    MoveForward(db, v, Shared, to, drawn);
  }

  lemma DeletesForward(db: Db, r: Pending, now: Moment, drawn: set<Id>)
    requires r.Request? && Deletes(r.intent)
    ensures Forward(db, Transact(db, r, now).Else(db), drawn)
  {
    hide Forward, DeleteProject, DeleteDeliverable, DeleteDraft;
    var db' := Transact(db, r, now).Else(db);
    match r.intent
    case DropProject(p, _) => DeleteProjectShrinks(db, p, now); SameForward(db, db', drawn);
    case DropDeliverable(d) => DeleteDeliverableShrinks(db, d, now); SameForward(db, db', drawn);
    case DropVersion(v) =>
      if r.seen.SeenVersion? {
        DeleteDraftShrinks(db, v, r.seen.file, now);
      }
      SameForward(db, db', drawn);
  }

  /** Versions and invoices of db' are those of db, fewer perhaps. */
  ghost predicate Shrinks(db: Db, db': Db) {
    && (forall v | v in db'.versions :: v in db.versions && db'.versions[v] == db.versions[v])
    && (forall i | i in db'.invoices :: i in db.invoices && db'.invoices[i] == db.invoices[i])
  }

  lemma DeleteDraftShrinks(db: Db, v: Id, file: Option<Id>, now: Instant)
    ensures Shrinks(db, DeleteDraft(db, v, file, now).Else(db))
  {
    hide HasDecision;
  }

  lemma DeleteDeliverableShrinks(db: Db, d: Id, now: Instant)
    ensures Shrinks(db, DeleteDeliverable(db, d, now).Else(db))
  {
    hide HasDecision, FilesOf;
  }

  lemma DeleteProjectShrinks(db: Db, p: Id, now: Instant)
    ensures Shrinks(db, DeleteProject(db, p, now).Else(db))
  {
    hide HasDecision, FilesOf, InProject;
  }

  lemma CreateInvoiceForward(db: Db, p: Id, id: Id, up: Option<Schema.Upload>, drawn: set<Id>)
    requires id in drawn
    ensures Forward(db, CreateInvoice(db, p, id, up).Else(db), drawn)
  {
  }

  lemma EditInvoiceForward(db: Db, i: Id, up: Option<Schema.Upload>, now: Instant, drawn: set<Id>)
    ensures Forward(db, EditInvoice(db, i, up, now).Else(db), drawn)
  {
    hide InsertFile, MarkDeleted, FilesOnly;
    EditInvoiceOnly(db, i, up, now);
    FilesOnlyMeans(db, EditInvoice(db, i, up, now).Else(db));
    if up.Some? && i in db.invoices {
      InsertFileOnly(db, up);
      if db.invoices[i].file.Some? {
        MarkDeletedOnly(InsertFile(db, up), {db.invoices[i].file.value}, now);
      }
    }
  }

  lemma SetInvoiceStatusForward(db: Db, i: Id, to: InvoiceStatus, drawn: set<Id>)
    ensures Forward(db, SetInvoiceStatus(db, i, to).Else(db), drawn)
  {
  }

  lemma SaveLogoForward(db: Db, up: Option<Schema.Upload>, was: Option<Id>, now: Instant, drawn: set<Id>)
    ensures Forward(db, SaveLogo(db, up, was, now).Else(db), drawn)
  {
    hide InsertFile, MarkDeleted, Forward;
    if up.Some? {
      InsertFileOnly(db, up);
      if was.Some? {
        MarkDeletedOnly(InsertFile(db, up), {was.value}, now);
      }
    }
    SameForward(db, SaveLogo(db, up, was, now).Else(db), drawn);
  }

  lemma TransactForward(w: World, t: nat)
    requires Reachable(w) && t in w.pending && w.pending[t].Request?
    ensures Forward(w.db, Transact(w.db, w.pending[t], w.clock).Else(w.db), NewIds(w.pending[t].intent))
  {
    hide Sound, Distinct, Forward, CreateVersion, DeleteProject, DeleteDeliverable, DeleteDraft, CreateInvoice, EditInvoice, SaveLogo,
         MoveVersion, Decide, SetInvoiceStatus;
    var db, r, now := w.db, w.pending[t], w.clock;
    var db', drawn := Transact(db, r, now).Else(db), NewIds(r.intent);
    assert Checked(r);
    match r.intent
    case AddVersion(d, reasonOk, id, file) => CreateVersionForward(db, d, id, UploadOf(file, r.upload), reasonOk, drawn);
    case Share(v) => if r.seen.SeenVersion? { MoveForward(db, v, r.seen.state, Shared, drawn); } else { SameForward(db, db', drawn); }
    case Withdraw(v) => if r.seen.SeenVersion? { MoveForward(db, v, r.seen.state, Withdrawn, drawn); } else { SameForward(db, db', drawn); }
    case Answer(v, to, id) => DecideForward(db, v, to, id, drawn);
    case DropVersion(v) => DeletesForward(db, r, now, drawn);
    case DropDeliverable(d) => DeletesForward(db, r, now, drawn);
    case DropProject(p, _) => DeletesForward(db, r, now, drawn);
    case AddInvoice(p, id, file) => CreateInvoiceForward(db, p, id, UploadOf(file, r.upload), drawn);
    case ChangeInvoice(i, file) => EditInvoiceForward(db, i, UploadOf(file, r.upload), now, drawn);
    case MoveInvoice(i, to) => SetInvoiceStatusForward(db, i, to, drawn);
    case SaveSettings(file) => if r.seen.SeenLogo? { SaveLogoForward(db, UploadOf(file, r.upload), r.seen.logo, now, drawn); } else { SameForward(db, db', drawn); }
    case _ => SameForward(db, db', drawn);
  }
}
