/**
 * Nothing is left unsaid (internal/web/notify.go and its callers): the transaction in which a version is
 * shared or withdrawn, an answer or a sign-off is recorded, or an invoice is sent, announces exactly that.
 * So over any run an event has its notice exactly when it happened; that it has one only, Notices proves.
 */
module Announcements {
  import opened Basics
  import opened Timestamps
  import opened JobTable
  import opened Domain
  import opened Schema
  import opened Requests
  import opened Identity
  import opened Approval
  import opened Progress
  import Closing
  import Folders
  import Notices

  /** The event of the notice shows in the tables. */
  predicate Happened(db: Db, n: Notice) {
    || (n.kind == "version.shared" && n.record in db.versions
        && (db.versions[n.record].state.Shared? || db.versions[n.record].state.Approved? || db.versions[n.record].state.RevisionRequested?))
    || (n.kind == "version.withdrawn" && n.record in db.versions && db.versions[n.record].state.Withdrawn?)
    || (n.kind == "decision" && n.record in db.decisions)
    || (n.kind == "signoff" && n.record in db.signoffs)
    || (n.kind == "invoice.sent" && n.record in db.invoices
        && (db.invoices[n.record].status.InvoiceSent? || db.invoices[n.record].status.InvoicePaid?))
  }

  /** It shows now and did not before. */
  predicate Happens(db: Db, db': Db, n: Notice) { Happened(db', n) && !Happened(db, n) }

  // ---- each transaction ----

  /** No row is new, and none has moved. */
  ghost predicate Quiet(db: Db, db': Db) {
    && Shrinks(db, db')
    && (forall c | c in db'.decisions :: c in db.decisions)
    && (forall s | s in db'.signoffs :: s in db.signoffs)
  }

  lemma QuietHappens(db: Db, db': Db, n: Notice)
    requires Quiet(db, db')
    ensures !Happens(db, db', n)
  {
  }

  lemma FilesHappen(db: Db, db': Db, n: Notice)
    requires FilesOnly(db, db')
    requires forall i | i in db'.invoices :: if i in db.invoices then db'.invoices[i].status == db.invoices[i].status else db'.invoices[i].status.InvoiceDraft?
    ensures !Happens(db, db', n)
  {
    FilesOnlyMeans(db, db');
  }

  lemma DeleteProjectQuiet(db: Db, p: Id, now: Moment)
    ensures Quiet(db, DeleteProject(db, p, now).Else(db))
  {
    hide DeleteProject;
    DeleteProjectShrinks(db, p, now);
    Folders.DeleteProjectDecisions(db, p, now);
    SignoffsFewer(db, p, now);
  }

  lemma SignoffsFewer(db: Db, p: Id, now: Moment)
    ensures forall s | s in DeleteProject(db, p, now).Else(db).signoffs :: s in db.signoffs
  {
    hide HasDecision, FilesOf, InProject;
  }

  lemma DeletesQuiet(db: Db, r: Pending, now: Moment)
    requires r.Request? && Deletes(r.intent)
    ensures Quiet(db, Transact(db, r, now).Else(db))
  {
    hide DeleteProject, DeleteDeliverable, DeleteDraft, Quiet;
    match r.intent
    case DropProject(p, _) => DeleteProjectQuiet(db, p, now);
    case DropDeliverable(d) => DeleteDeliverableQuiet(db, d, now);
    case DropVersion(v) =>
      if r.seen.SeenVersion? {
        DeleteDraftQuiet(db, v, r.seen.file, now);
      } else {
        ItselfQuiet(db);
      }
  }

  lemma DeleteDeliverableQuiet(db: Db, d: Id, now: Moment)
    ensures Quiet(db, DeleteDeliverable(db, d, now).Else(db))
  {
    hide DeleteDeliverable;
    DeleteDeliverableShrinks(db, d, now);
    Folders.DeleteDeliverableRows(db, d, now);
  }

  lemma DeleteDraftQuiet(db: Db, v: Id, file: Option<Id>, now: Moment)
    ensures Quiet(db, DeleteDraft(db, v, file, now).Else(db))
  {
    hide HasDecision, MarkDeleted;
    DeleteDraftShrinks(db, v, file, now);
    if file.Some? {
      MarkDeletedOnly(DropVersions(db, {v}), {file.value}, now);
    }
  }

  lemma ItselfQuiet(db: Db)
    ensures Quiet(db, db)
  {
  }

  lemma CreateVersionHappens(db: Db, d: Id, id: Id, up: Option<Upload>, reasonOk: bool, n: Notice)
    requires id !in db.versions
    ensures !Happens(db, CreateVersion(db, d, id, up, reasonOk).Else(db), n)
  {
    hide NewestOf, InsertFile;
    InsertFileOnly(db, up);
  }

  lemma MoveHappens(db: Db, v: Id, from: VersionState, to: VersionState, n: Notice)
    requires (to.Shared? && from.Draft?) || (to.Withdrawn? && (from.Draft? || from.Shared?))
    requires MoveVersion(db, v, from, to).Committed?
    ensures Happens(db, MoveVersion(db, v, from, to).db, n) <==>
      n == Notice(if to.Shared? then "version.shared" else "version.withdrawn", v)
  {
  }

  lemma DecideHappens(db: Db, v: Id, to: VersionState, id: Id, n: Notice)
    requires Answered(to) && id !in db.decisions && Decide(db, v, to, id).Committed?
    ensures Happens(db, Decide(db, v, to, id).db, n) <==> n == Notice("decision", id)
  {
  }

  lemma SignHappens(db: Db, p: Id, id: Id, rows: seq<Row>, n: Notice)
    requires id !in db.signoffs && SignOff(db, p, id, rows).Committed?
    ensures Happens(db, SignOff(db, p, id, rows).db, n) <==> n == Notice("signoff", id)
  {
  }

  lemma StatusHappens(db: Db, i: Id, to: InvoiceStatus, n: Notice)
    requires SetInvoiceStatus(db, i, to).Committed?
    ensures Happens(db, SetInvoiceStatus(db, i, to).db, n) <==> to.InvoiceSent? && n == Notice("invoice.sent", i)
  {
  }

  lemma InvoiceStatuses(db: Db, r: Pending, now: Moment)
    requires r.Request? && (r.intent.AddInvoice? || r.intent.ChangeInvoice? || r.intent.SaveSettings?)
    requires r.intent.AddInvoice? ==> r.intent.id !in db.invoices
    ensures
      var db' := Transact(db, r, now).Else(db);
      && FilesOnly(db, db')
      && forall i | i in db'.invoices :: if i in db.invoices then db'.invoices[i].status == db.invoices[i].status else db'.invoices[i].status.InvoiceDraft?
  {
    hide InsertFile, MarkDeleted, FilesOnly;
    match r.intent
    case AddInvoice(p, id, file) =>
      AddInvoiceOnly(db, p, id, UploadOf(file, r.upload));
      InsertFileOnly(db, UploadOf(file, r.upload));
    case ChangeInvoice(i, file) =>
      EditInvoiceOnly(db, i, UploadOf(file, r.upload), now);
      ChangedStatuses(db, i, UploadOf(file, r.upload), now);
    case SaveSettings(file) =>
      if r.seen.SeenLogo? {
        SaveLogoOnly(db, UploadOf(file, r.upload), r.seen.logo, now);
        LogoStatuses(db, UploadOf(file, r.upload), r.seen.logo, now);
      } else {
        NothingOnly(db);
      }
  }

  lemma NothingOnly(db: Db)
    ensures FilesOnly(db, db)
  {
  }

  lemma ChangedStatuses(db: Db, i: Id, up: Option<Upload>, now: Moment)
    ensures
      var db' := EditInvoice(db, i, up, now).Else(db);
      db'.invoices.Keys == db.invoices.Keys && forall k | k in db.invoices :: db'.invoices[k].status == db.invoices[k].status
  {
    hide InsertFile, MarkDeleted;
    if up.Some? && i in db.invoices {
      InsertFileOnly(db, up);
      if db.invoices[i].file.Some? {
        MarkDeletedOnly(InsertFile(db, up), {db.invoices[i].file.value}, now);
      }
    }
  }

  lemma LogoStatuses(db: Db, up: Option<Upload>, was: Option<Id>, now: Moment)
    ensures SaveLogo(db, up, was, now).Else(db).invoices == db.invoices
  {
    hide InsertFile, MarkDeleted;
    if up.Some? {
      InsertFileOnly(db, up);
      if was.Some? {
        MarkDeletedOnly(InsertFile(db, up), {was.value}, now);
      }
    }
  }

  /** What a commit announces is what it makes happen. */
  lemma TransactHappens(w: World, t: nat, n: Notice)
    requires Reachable(w) && t in w.pending && w.pending[t].Request? && Transact(w.db, w.pending[t], w.clock).Committed?
    ensures Happens(w.db, Transact(w.db, w.pending[t], w.clock).db, n) <==> n in NoticeOf(w.pending[t].intent)
  {
    hide Sound, Happens, FilesOnly, Quiet, DeleteProject, DeleteDeliverable, DeleteDraft, CreateVersion, CreateInvoice, EditInvoice,
         SaveLogo, MoveVersion, Decide, SignOff, SetInvoiceStatus;
    var db, r, now := w.db, w.pending[t], w.clock;
    var db' := Transact(db, r, now).db;
    assert Checked(r) && Fresh(w, t);
    match r.intent
    case DropProject(_, _) => DeletesQuiet(db, r, now); QuietHappens(db, db', n);
    case DropDeliverable(_) => DeletesQuiet(db, r, now); QuietHappens(db, db', n);
    case DropVersion(_) => DeletesQuiet(db, r, now); QuietHappens(db, db', n);
    case AddVersion(d, reasonOk, id, file) => CreateVersionHappens(db, d, id, UploadOf(file, r.upload), reasonOk, n);
    case Share(v) => MoveHappens(db, v, r.seen.state, Shared, n);
    case Withdraw(v) => MoveHappens(db, v, r.seen.state, Withdrawn, n);
    case Answer(v, to, id) => DecideHappens(db, v, to, id, n);
    case Sign(p, _, id) => SignHappens(db, p, id, r.seen.rows, n);
    case AddInvoice(_, _, _) => InvoiceStatuses(db, r, now); FilesHappen(db, db', n);
    case ChangeInvoice(_, _) => InvoiceStatuses(db, r, now); FilesHappen(db, db', n);
    case SaveSettings(_) => InvoiceStatuses(db, r, now); FilesHappen(db, db', n);
    case MoveInvoice(i, to) => StatusHappens(db, i, to, n);
    case _ => RestQuiet(db, r, now); QuietHappens(db, db', n);
  }

  lemma RestQuiet(db: Db, r: Pending, now: Moment)
    requires r.Request?
    requires r.intent.AddProject? || r.intent.CloseProject? || r.intent.ReopenProject? || r.intent.AddDeliverable?
          || r.intent.ChangeDeliverable? || r.intent.AddWaiver?
    ensures Quiet(db, Transact(db, r, now).Else(db))
  {
  }

  // ---- over steps and runs ----

  /** A step adds a notice exactly for what it makes happen, and it never takes one back. */
  lemma AnnouncedAtOnce(w: World, s: Step, n: Notice)
    requires Reachable(w)
    ensures w.notices <= Do(w, s).notices
    ensures n in Do(w, s).notices[|w.notices|..] <==> Happened(Do(w, s).db, n) && !Happened(w.db, n)
  {
    hide Reachable, Do, Happened, Transact;
    if s.Commit? && s.ticket in w.pending && w.pending[s.ticket].Request? {
      Closing.CommitDb(w, s.ticket);
      CommitNotices(w, s.ticket);
      if Transact(w.db, w.pending[s.ticket], w.clock).Committed? {
        TransactHappens(w, s.ticket, n);
      }
    } else {
      OtherQuiet(w, s);
      QuietHappens(w.db, Do(w, s).db, n);
    }
  }

  lemma CommitNotices(w: World, t: nat)
    requires t in w.pending && w.pending[t].Request?
    ensures Do(w, Commit(t)).notices ==
      w.notices + if Transact(w.db, w.pending[t], w.clock).Committed? then NoticeOf(w.pending[t].intent) else []
  {
    hide Transact, NoticeOf;
  }

  lemma OtherQuiet(w: World, s: Step)
    requires !(s.Commit? && s.ticket in w.pending && w.pending[s.ticket].Request?)
    ensures Quiet(w.db, Do(w, s).db) && Do(w, s).notices == w.notices
  {
    hide Do;
    Notices.OtherNotices(w, s);
    if s.PurgeRow? {
      Closing.PurgeRowFiles(w, s.purger);
    } else if s.Commit? {
      Closing.NoCommit(w, s.ticket);
    } else {
      Closing.OtherKeepsDb(w, s);
    }
  }

  /** The event showed in the tables at some time. */
  ghost predicate Ever(w: World, steps: seq<Step>, n: Notice)
    decreases |steps|
  {
    Happened(w.db, n) || (steps != [] && Ever(Do(w, steps[0]), steps[1..], n))
  }

  lemma {:induction false} NoticedExactly(w: World, steps: seq<Step>, n: Notice)
    requires Reachable(w) && (Happened(w.db, n) ==> n in w.notices)
    ensures n in Run(w, steps).notices <==> n in w.notices || Ever(w, steps, n)
    ensures Happened(Run(w, steps).db, n) ==> n in Run(w, steps).notices
    decreases |steps|
  {
    hide Reachable, Do, Happened;
    if steps != [] {
      var v := Do(w, steps[0]);
      AnnouncedAtOnce(w, steps[0], n);
      assert v.notices == w.notices + v.notices[|w.notices|..];
      ReachableDo(w, steps[0]);
      NoticedExactly(v, steps[1..], n);
    }
  }

  /**
   * Over any run a notice was given exactly when its event happened: a version was shared, withdrawn, answered
   * or signed off, or an invoice sent. Whatever of it the tables still show has its notice, and it has one.
   */
  lemma AnnouncedExactly(clock: Moment, steps: seq<Step>, n: Notice)
    ensures
      var w := Run(Start(clock), steps);
      && (n in w.notices <==> Ever(Start(clock), steps, n))
      && (Happened(w.db, n) ==> exists i :: 0 <= i < |w.notices| && w.notices[i] == n)
      && forall i, j | 0 <= i < j < |w.notices| && w.notices[i] == n :: w.notices[j] != n
  {
    hide Reachable, Run;
    StartReachable(clock);
    NoticedExactly(Start(clock), steps, n);
    var ns := Run(Start(clock), steps).notices;
    forall i, j | 0 <= i < j < |ns| && ns[i] == n
      ensures ns[j] != n
    {
      Notices.NoticesNeverRepeat(clock, steps, i, j);
    }
  }
}
