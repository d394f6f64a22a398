/**
 * Fresh ids: a request draws the ids of its new rows when it starts, and since none is ever drawn
 * twice, no commit can overwrite a row. Kept for every reachable state of Requests.dfy.
 */
module Identity {
  import opened Basics
  import opened Timestamps
  import opened JobTable
  import opened Domain
  import opened Schema
  import opened Requests

  /** Every row of every table has its id in ids. */
  ghost predicate Within(db: Db, ids: set<Id>) {
    && db.projects.Keys <= ids && db.deliverables.Keys <= ids && db.versions.Keys <= ids && db.decisions.Keys <= ids
    && db.waivers.Keys <= ids && db.signoffs.Keys <= ids && db.invoices.Keys <= ids && db.files.Keys <= ids
  }

  predicate TwoIds(intent: Intent) {
    (intent.AddVersion? || intent.AddInvoice?) ==> intent.id != intent.file
  }

  ghost predicate Fresh(w: World, t: nat)
    requires t in w.pending && w.pending[t].Request?
  {
    var drawn := NewIds(w.pending[t].intent);
    drawn <= w.usedIds && Within(w.db, w.usedIds - drawn) && TwoIds(w.pending[t].intent)
  }

  ghost predicate Distinct(w: World) {
    && Within(w.db, w.usedIds)
    && (forall t | t in w.pending && w.pending[t].Request? :: Fresh(w, t))
    && (forall t, u | t in w.pending && u in w.pending && t != u && w.pending[t].Request? && w.pending[u].Request? ::
          NewIds(w.pending[t].intent) !! NewIds(w.pending[u].intent))
  }

  lemma InsertFileWithin(db: Db, up: Option<Schema.Upload>, ids: set<Id>)
    requires Within(db, ids) && (up.Some? ==> up.value.id in ids)
    ensures Within(InsertFile(db, up), ids)
  {
  }

  lemma MarkDeletedWithin(db: Db, fs: set<Id>, now: Instant, ids: set<Id>)
    requires Within(db, ids)
    ensures Within(MarkDeleted(db, fs, now), ids)
  {
  }

  lemma CreateVersionWithin(db: Db, d: Id, id: Id, up: Option<Schema.Upload>, reasonOk: bool, ids: set<Id>)
    requires Within(db, ids) && id in ids && (up.Some? ==> up.value.id in ids)
    ensures Within(CreateVersion(db, d, id, up, reasonOk).Else(db), ids)
  {
    hide NewestOf;
    InsertFileWithin(db, up, ids);
  }

  lemma InvoicesWithin(db: Db, p: Id, id: Id, up: Option<Schema.Upload>, now: Moment, ids: set<Id>)
    requires Within(db, ids) && id in ids && (up.Some? ==> up.value.id in ids)
    ensures Within(CreateInvoice(db, p, id, up).Else(db), ids)
  {
    InsertFileWithin(db, up, ids);
  }

  /** The document swap and the logo swap. */
  lemma SwapsWithin(db: Db, i: Id, up: Option<Schema.Upload>, was: Option<Id>, now: Moment, ids: set<Id>)
    requires Within(db, ids) && (up.Some? ==> up.value.id in ids)
    ensures Within(EditInvoice(db, i, up, now).Else(db), ids)
    ensures Within(SaveLogo(db, up, was, now).Else(db), ids)
  {
    hide InsertFile, MarkDeleted;
    InsertFileWithin(db, up, ids);
    var db1 := InsertFile(db, up);
    assert db1.invoices == db.invoices by { InsertFileOnly(db, up); }
    if was.Some? {
      MarkDeletedWithin(db1, {was.value}, now, ids);
    }
    if i in db.invoices && db.invoices[i].file.Some? {
      MarkDeletedWithin(db1, {db.invoices[i].file.value}, now, ids);
      MarkDeletedOnly(db1, {db.invoices[i].file.value}, now);
    }
  }

  lemma InsertFileOnly(db: Db, up: Option<Schema.Upload>)
    ensures InsertFile(db, up) == db.(files := InsertFile(db, up).files)
  {
  }

  lemma MarkDeletedOnly(db: Db, fs: set<Id>, now: Instant)
    ensures MarkDeleted(db, fs, now) == db.(files := MarkDeleted(db, fs, now).files)
  {
  }

  lemma DeleteDraftWithin(db: Db, v: Id, file: Option<Id>, now: Moment, ids: set<Id>)
    requires Within(db, ids)
    ensures Within(DeleteDraft(db, v, file, now).Else(db), ids)
  {
    hide HasDecision;
  }

  lemma DeleteDeliverableWithin(db: Db, d: Id, now: Moment, ids: set<Id>)
    requires Within(db, ids)
    ensures Within(DeleteDeliverable(db, d, now).Else(db), ids)
  {
    hide FilesOf, HasDecision;
  }

  lemma DeleteProjectWithin(db: Db, p: Id, now: Moment, ids: set<Id>)
    requires Within(db, ids)
    ensures Within(DeleteProject(db, p, now).Else(db), ids)
  {
    hide FilesOf, HasDecision, InProject;
  }

  lemma MoveVersionWithin(db: Db, v: Id, from: VersionState, to: VersionState, ids: set<Id>)
    requires Within(db, ids)
    ensures Within(MoveVersion(db, v, from, to).Else(db), ids)
  {
  }

  lemma DecideWithin(db: Db, v: Id, to: VersionState, id: Id, ids: set<Id>)
    requires Within(db, ids) && id in ids
    ensures Within(Decide(db, v, to, id).Else(db), ids)
  {
    MoveVersionWithin(db, v, Shared, to, ids);
  }

  lemma WaiveWithin(db: Db, d: Id, id: Id, reason: string, now: Moment, ids: set<Id>)
    requires Within(db, ids) && id in ids
    ensures Within(Waive(db, d, id, reason, now).Else(db), ids)
  {
  }

  lemma SignOffWithin(db: Db, p: Id, id: Id, rows: seq<Row>, ids: set<Id>)
    requires Within(db, ids) && id in ids
    ensures Within(SignOff(db, p, id, rows).Else(db), ids)
  {
  }

  lemma CreateProjectWithin(db: Db, org: Id, id: Id, ids: set<Id>)
    requires Within(db, ids) && id in ids
    ensures Within(CreateProject(db, id, org).Else(db), ids)
  {
  }

  lemma CreateDeliverableWithin(db: Db, p: Id, id: Id, required: bool, ids: set<Id>)
    requires Within(db, ids) && id in ids
    ensures Within(CreateDeliverable(db, p, id, required).Else(db), ids)
  {
  }

  lemma SetClosedWithin(db: Db, p: Id, closed: bool, ids: set<Id>)
    requires Within(db, ids)
    ensures Within(SetClosed(db, p, closed).Else(db), ids)
  {
  }

  lemma EditDeliverableWithin(db: Db, d: Id, required: bool, ids: set<Id>)
    requires Within(db, ids)
    ensures Within(EditDeliverable(db, d, required).Else(db), ids)
  {
  }

  lemma SetInvoiceStatusWithin(db: Db, i: Id, to: InvoiceStatus, ids: set<Id>)
    requires Within(db, ids)
    ensures Within(SetInvoiceStatus(db, i, to).Else(db), ids)
  {
  }

  /** A transaction adds rows only under the ids its request drew. */
  lemma TransactWithin(db: Db, r: Pending, now: Moment, ids: set<Id>)
    requires r.Request? && Within(db, ids) && NewIds(r.intent) <= ids
    ensures Within(Transact(db, r, now).Else(db), ids)
  {
    hide Within, CreateVersion, DeleteProject, DeleteDeliverable, DeleteDraft, CreateInvoice, EditInvoice, SaveLogo,
         MoveVersion, Decide, Waive, SignOff, CreateProject, CreateDeliverable, SetClosed, EditDeliverable, SetInvoiceStatus;
    match r.intent
    case AddProject(org, id) => CreateProjectWithin(db, org, id, ids);
    case CloseProject(p) => SetClosedWithin(db, p, true, ids);
    case ReopenProject(p) => SetClosedWithin(db, p, false, ids);
    case DropProject(p, _) => DeleteProjectWithin(db, p, now, ids);
    case AddDeliverable(p, required, id) => CreateDeliverableWithin(db, p, id, required, ids);
    case ChangeDeliverable(d, required) => EditDeliverableWithin(db, d, required, ids);
    case DropDeliverable(d) => DeleteDeliverableWithin(db, d, now, ids);
    case AddWaiver(d, reason, id) => WaiveWithin(db, d, id, reason, now, ids);
    case AddVersion(d, reasonOk, id, file) => CreateVersionWithin(db, d, id, UploadOf(file, r.upload), reasonOk, ids);
    case Share(v) => if r.seen.SeenVersion? { MoveVersionWithin(db, v, r.seen.state, Shared, ids); }
    case Withdraw(v) => if r.seen.SeenVersion? { MoveVersionWithin(db, v, r.seen.state, Withdrawn, ids); }
    case DropVersion(v) => if r.seen.SeenVersion? { DeleteDraftWithin(db, v, r.seen.file, now, ids); }
    case Answer(v, to, id) => DecideWithin(db, v, to, id, ids);
    case Sign(p, _, id) => if r.seen.SeenRows? { SignOffWithin(db, p, id, r.seen.rows, ids); }
    case AddInvoice(p, id, file) => InvoicesWithin(db, p, id, UploadOf(file, r.upload), now, ids);
    case ChangeInvoice(i, file) => SwapsWithin(db, i, UploadOf(file, r.upload), None, now, ids);
    case MoveInvoice(i, to) => SetInvoiceStatusWithin(db, i, to, ids);
    case SaveSettings(file) => if r.seen.SeenLogo? { SwapsWithin(db, 0, UploadOf(file, r.upload), r.seen.logo, now, ids); }
  }

  lemma DistinctCommit(w: World, t: nat)
    requires Distinct(w) && t in w.pending && w.pending[t].Request?
    ensures Distinct(DoCommit(w, t))
  {
    hide Transact, NewIds, Within, NoticeOf;
    var r, v := w.pending[t], DoCommit(w, t);
    assert v.db == Transact(w.db, r, w.clock).Else(w.db);
    assert Fresh(w, t);
    TransactWithin(w.db, r, w.clock, w.usedIds);
    forall u | u in v.pending && v.pending[u].Request?
      ensures Fresh(v, u)
    {
      assert Fresh(w, u);
      assert NewIds(r.intent) <= w.usedIds - NewIds(w.pending[u].intent);
      TransactWithin(w.db, r, w.clock, w.usedIds - NewIds(w.pending[u].intent));
    }
  }

  lemma WithinMore(db: Db, ids: set<Id>, more: set<Id>)
    requires Within(db, ids) && ids <= more
    ensures Within(db, more)
  {
  }

  lemma DistinctRead(w: World, t: nat, intent: Intent)
    requires Distinct(w)
    ensures Distinct(DoRead(w, t, intent))
  {
    hide See, Within, NewIds;
    var v := DoRead(w, t, intent);
    if v != w {
      WithinMore(w.db, w.usedIds, v.usedIds);
      forall u | u in v.pending && v.pending[u].Request?
        ensures Fresh(v, u)
      {
        if u == t {
          assert w.usedIds <= v.usedIds - NewIds(intent);
          WithinMore(w.db, w.usedIds, v.usedIds - NewIds(intent));
        } else {
          assert Fresh(w, u);
          WithinMore(w.db, w.usedIds - NewIds(w.pending[u].intent), v.usedIds - NewIds(w.pending[u].intent));
        }
      }
    }
  }

  /** Steps that only forget requests or change other parts of the state. */
  lemma DistinctLess(w: World, v: World)
    requires Distinct(w) && v.usedIds == w.usedIds
    requires forall ids | Within(w.db, ids) :: Within(v.db, ids)
    requires forall t | t in v.pending && v.pending[t].Request? :: t in w.pending && w.pending[t] == v.pending[t]
    ensures Distinct(v)
  {
    hide Within, NewIds;
    forall t | t in v.pending && v.pending[t].Request?
      ensures Fresh(v, t)
    {
      assert Fresh(w, t);
    }
  }

  lemma DistinctDo(w: World, s: Step)
    requires Distinct(w)
    ensures Distinct(Do(w, s))
  {
    hide DoRead, DoCommit, Due, Held;
    match s
    case Read(t, intent) => DistinctRead(w, t, intent);
    case Commit(t) =>
      if t in w.pending && w.pending[t].Request? {
        DistinctCommit(w, t);
      }
    case _ => DistinctLess(w, Do(w, s));
  }

  lemma {:induction false} DistinctRun(w: World, steps: seq<Step>)
    requires Distinct(w)
    ensures Distinct(Run(w, steps))
    decreases |steps|
  {
    if steps != [] {
      DistinctDo(w, steps[0]);
      DistinctRun(Do(w, steps[0]), steps[1..]);
    }
  }
}
