/**
 * Exactly when the transaction of a request changes anything recorded about its project: a guard for each
 * kind of request, read off the project's own folder. It is what decides whether a request that read
 * before a project was closed still does something to it afterwards.
 */
module Guards {
  import opened Basics
  import opened Timestamps
  import opened JobTable
  import opened Domain
  import opened Schema
  import opened Requests
  import opened Identity
  import opened Approval
  import opened Folders
  import Handoff

  const NOTHING: Folder := Folder(None, map[], map[], map[], map[], map[], map[])

  predicate NewestIn(vs: Versions, v: Id, d: Id) {
    v in vs && vs[v].deliverable == d && forall u | u in vs && vs[u].deliverable == d :: vs[u].number <= vs[v].number
  }

  /** The newest version, if any, lets a new one follow. */
  predicate MayFollow(vs: Versions, d: Id, reasonOk: bool) {
    forall v | v in vs && NewestIn(vs, v, d) ::
      vs[v].state.RevisionRequested? || vs[v].state.Withdrawn? || (vs[v].state.Approved? && reasonOk)
  }

  /** The guard of each request. */
  predicate Changes(f: Folder, r: Pending)
    requires r.Request?
  {
    match r.intent
    case AddProject(_, _) => f.project.None?
    case CloseProject(_) => f.project.Some? && !f.project.value.closed
    case ReopenProject(_) => f.project.Some? && f.project.value.closed
    case DropProject(_, _) => f != NOTHING
    case AddDeliverable(_, _, _) => f.project.Some?
    case ChangeDeliverable(d, required) => d in f.deliverables && f.deliverables[d].required != required
    case DropDeliverable(d) =>
      d in f.deliverables && forall v | v in f.versions && f.versions[v].deliverable == d :: f.versions[v].state.Draft?
    case AddWaiver(d, _, _) => d in f.deliverables
    case AddVersion(d, reasonOk, _, _) => d in f.deliverables && MayFollow(f.versions, d, reasonOk)
    case Share(v) => v in f.versions && r.seen.SeenVersion? && f.versions[v].state == r.seen.state
    case Withdraw(v) => v in f.versions && r.seen.SeenVersion? && f.versions[v].state == r.seen.state
    case DropVersion(v) => v in f.versions && f.versions[v].state.Draft?
    case Answer(v, _, _) => v in f.versions && f.versions[v].state.Shared?
    case Sign(_, _, _) => f.project.Some?
    case AddInvoice(_, _, _) => f.project.Some?
    case ChangeInvoice(i, file) =>
      i in f.invoices && (f.invoices[i].status.InvoiceDraft? || f.invoices[i].status.InvoiceSent?) && r.upload.Some? && f.invoices[i].file != Some(file)
    case MoveInvoice(i, to) =>
      && i in f.invoices
      && if f.invoices[i].status.InvoiceDraft? then to.InvoiceSent? || to.InvoiceCanceled?
         else f.invoices[i].status.InvoiceSent? && (to.InvoicePaid? || to.InvoiceCanceled?)
    case SaveSettings(_) => false
  }

  // ---- rows of a folder ----

  lemma RowsOfFolder(db: Db, p: Id)
    ensures forall d :: d in FolderOf(db, p).deliverables <==> OfDeliverable(db, d) == Some(p)
    ensures forall d | d in FolderOf(db, p).deliverables :: FolderOf(db, p).deliverables[d] == db.deliverables[d]
    ensures forall v :: v in FolderOf(db, p).versions <==> OfVersion(db, v) == Some(p)
    ensures forall v | v in FolderOf(db, p).versions :: FolderOf(db, p).versions[v] == db.versions[v]
    ensures forall i :: i in FolderOf(db, p).invoices <==> OfInvoice(db, i) == Some(p)
    ensures forall i | i in FolderOf(db, p).invoices :: FolderOf(db, p).invoices[i] == db.invoices[i]
  {
  }

  // ---- each transaction ----

  lemma CloseExactly(db: Db, p: Id, closed: bool)
    ensures FolderOf(SetClosed(db, p, closed).Else(db), p) != FolderOf(db, p) <==> p in db.projects && db.projects[p].closed != closed
  {
    hide FolderOf;
    var db' := SetClosed(db, p, closed).Else(db);
    if p in db.projects && db.projects[p].closed == closed {
      assert db'.projects == db.projects;
    }
    ProjectOf(db, p);
    ProjectOf(db', p);
  }

  lemma ProjectOf(db: Db, p: Id)
    ensures FolderOf(db, p).project == if p in db.projects then Some(db.projects[p]) else None
  {
  }

  lemma AddProjectExactly(db: Db, p: Id, org: Id)
    requires p !in db.projects
    ensures FolderOf(CreateProject(db, p, org).Else(db), p) != FolderOf(db, p)
  {
    hide FolderOf;
    ProjectOf(db, p);
    ProjectOf(CreateProject(db, p, org).Else(db), p);
  }

  /** Deleting a project leaves nothing of it. */
  lemma DropLeavesNothing(db: Db, p: Id, now: Moment)
    ensures FolderOf(DeleteProject(db, p, now).Else(db), p) == NOTHING
  {
    hide DeleteProject, FolderOf;
    DeleteProjectCommits(db, p, now);
    var db' := DeleteProject(db, p, now).db;
    NothingOf(db, p, now);
    EmptyFolder(db', p);
  }

  lemma EmptyFolder(db: Db, p: Id)
    requires p !in db.projects
    requires (forall d | d in db.deliverables :: db.deliverables[d].project != p) && (forall v | v in db.versions :: !InProject(db, v, p))
    requires (forall s | s in db.signoffs :: db.signoffs[s].project != p) && (forall i | i in db.invoices :: db.invoices[i].project != p)
    ensures FolderOf(db, p) == NOTHING
  {
  }

  lemma NothingOf(db: Db, p: Id, now: Moment)
    requires DeleteProject(db, p, now).Committed?
    ensures
      var db' := DeleteProject(db, p, now).db;
      && p !in db'.projects
      && (forall d | d in db'.deliverables :: db'.deliverables[d].project != p) && (forall v | v in db'.versions :: !InProject(db', v, p))
      && (forall s | s in db'.signoffs :: db'.signoffs[s].project != p) && (forall i | i in db'.invoices :: db'.invoices[i].project != p)
  {
    hide FilesOf, HasDecision;
  }

  lemma AddDeliverableExactly(db: Db, p: Id, d: Id, required: bool)
    requires d !in db.deliverables
    ensures FolderOf(CreateDeliverable(db, p, d, required).Else(db), p) != FolderOf(db, p) <==> p in db.projects
  {
    hide FolderOf;
    RowsOfFolder(db, p);
    var db' := CreateDeliverable(db, p, d, required).Else(db);
    RowsOfFolder(db', p);
    assert d !in FolderOf(db, p).deliverables && (p in db.projects ==> d in FolderOf(db', p).deliverables);
  }

  lemma EditDeliverableExactly(db: Db, d: Id, required: bool, p: Id)
    requires OfDeliverable(db, d) == Some(p)
    ensures FolderOf(EditDeliverable(db, d, required).Else(db), p) != FolderOf(db, p) <==> db.deliverables[d].required != required
  {
    hide FolderOf;
    var db' := EditDeliverable(db, d, required).Else(db);
    RowsOfFolder(db, p);
    RowsOfFolder(db', p);
    if db.deliverables[d].required == required {
      assert db'.deliverables == db.deliverables;
    }
  }

  lemma DropDeliverableExactly(db: Db, d: Id, now: Moment, p: Id)
    requires Sound(db) && OfDeliverable(db, d) == Some(p)
    ensures FolderOf(DeleteDeliverable(db, d, now).Else(db), p) != FolderOf(db, p) <==>
      forall v | v in db.versions && db.versions[v].deliverable == d :: db.versions[v].state.Draft?
  {
    hide FolderOf, DeleteDeliverable, Sound;
    var r := DeleteDeliverable(db, d, now);
    DropDeliverableCommits(db, d, now);
    RowsOfFolder(db, p);
    if r.Committed? {
      DeleteDeliverableRows(db, d, now);
      RowsOfFolder(r.db, p);
      assert d !in r.db.deliverables;
    }
  }

  lemma DropDeliverableCommits(db: Db, d: Id, now: Moment)
    requires Sound(db)
    ensures DeleteDeliverable(db, d, now).Committed? <==> forall v | v in db.versions && db.versions[v].deliverable == d :: db.versions[v].state.Draft?
  {
    hide FilesOf, HasDecision, Sound, MarkDeleted;
    DeleteDeliverableSound(db, d, now);
    var vs := set v | v in db.versions && Belongs(db, v, d);
    assert forall v | v in db.versions && db.versions[v].deliverable == d :: v in vs;
  }

  lemma WaiveExactly(db: Db, d: Id, id: Id, reason: string, now: Moment, p: Id)
    requires OfDeliverable(db, d) == Some(p) && id !in db.waivers
    ensures FolderOf(Waive(db, d, id, reason, now).Else(db), p) != FolderOf(db, p)
  {
    assert id in FolderOf(Waive(db, d, id, reason, now).Else(db), p).waivers;
  }

  lemma CreateVersionExactly(db: Db, d: Id, id: Id, up: Option<Upload>, reasonOk: bool, p: Id)
    requires Sound(db) && OfDeliverable(db, d) == Some(p) && id !in db.versions
    ensures FolderOf(CreateVersion(db, d, id, up, reasonOk).Else(db), p) != FolderOf(db, p) <==> MayFollow(FolderOf(db, p).versions, d, reasonOk)
  {
    hide FolderOf, CreateVersion, Sound, MayFollow;
    var r := CreateVersion(db, d, id, up, reasonOk);
    FollowsExactly(db, d, id, up, reasonOk);
    SameFollow(db, d, reasonOk, p);
    RowsOfFolder(db, p);
    if r.Committed? {
      RowsOfFolder(r.db, p);
      NewVersionIn(db, d, id, up, reasonOk);
    }
  }

  lemma NewVersionIn(db: Db, d: Id, id: Id, up: Option<Upload>, reasonOk: bool)
    requires CreateVersion(db, d, id, up, reasonOk).Committed?
    ensures
      var db' := CreateVersion(db, d, id, up, reasonOk).db;
      id in db'.versions && db'.versions[id].deliverable == d && db'.deliverables == db.deliverables
  {
    hide NewestOf;
  }

  lemma FollowsExactly(db: Db, d: Id, id: Id, up: Option<Upload>, reasonOk: bool)
    requires Sound(db) && d in db.deliverables
    ensures CreateVersion(db, d, id, up, reasonOk).Committed? <==> MayFollow(db.versions, d, reasonOk)
  {
    hide NewestOf, Linked, GapFree, OpenLast, Decided;
    NewestExists(db, d);
    forall v | v in db.versions
      ensures NewestIn(db.versions, v, d) <==> NewestOf(db, d) == Some(v)
    {
      Handoff.JoinFindsNewest(db, v, d);
      assert Newest(db, v, d) <==> NewestIn(db.versions, v, d);
    }
  }

  /** The versions of a deliverable are all in its project's folder. */
  lemma SameFollow(db: Db, d: Id, reasonOk: bool, p: Id)
    requires OfDeliverable(db, d) == Some(p)
    ensures MayFollow(FolderOf(db, p).versions, d, reasonOk) <==> MayFollow(db.versions, d, reasonOk)
  {
    hide FolderOf;
    RowsOfFolder(db, p);
    var vs := FolderOf(db, p).versions;
    forall v
      ensures NewestIn(vs, v, d) <==> NewestIn(db.versions, v, d)
    {
    }
  }

  lemma MoveExactly(db: Db, v: Id, from: VersionState, to: VersionState, p: Id)
    requires OfVersion(db, v) == Some(p) && from != to
    ensures FolderOf(MoveVersion(db, v, from, to).Else(db), p) != FolderOf(db, p) <==> db.versions[v].state == from
  {
    hide FolderOf;
    RowsOfFolder(db, p);
    RowsOfFolder(MoveVersion(db, v, from, to).Else(db), p);
  }

  lemma DecideExactly(db: Db, v: Id, to: VersionState, id: Id, p: Id)
    requires OfVersion(db, v) == Some(p) && Answered(to)
    ensures FolderOf(Decide(db, v, to, id).Else(db), p) != FolderOf(db, p) <==> db.versions[v].state.Shared?
  {
    hide FolderOf;
    RowsOfFolder(db, p);
    RowsOfFolder(Decide(db, v, to, id).Else(db), p);
  }

  lemma DeleteDraftExactly(db: Db, v: Id, file: Option<Id>, now: Moment, p: Id)
    requires Sound(db) && OfVersion(db, v) == Some(p)
    ensures FolderOf(DeleteDraft(db, v, file, now).Else(db), p) != FolderOf(db, p) <==> db.versions[v].state.Draft?
  {
    hide FolderOf, HasDecision, Sound, MarkDeleted;
    DeleteDraftSound(db, v, file, now);
    RowsOfFolder(db, p);
    var r := DeleteDraft(db, v, file, now);
    if r.Committed? {
      RowsOfFolder(r.db, p);
      if file.Some? {
        MarkDeletedOnly(DropVersions(db, {v}), {file.value}, now);
      }
      assert v !in r.db.versions;
    }
  }

  lemma SignExactly(db: Db, p: Id, id: Id, rows: seq<Row>)
    requires id !in db.signoffs
    ensures FolderOf(SignOff(db, p, id, rows).Else(db), p) != FolderOf(db, p) <==> p in db.projects
  {
    if p in db.projects {
      assert id in FolderOf(SignOff(db, p, id, rows).Else(db), p).signoffs;
    }
  }

  lemma AddInvoiceExactly(db: Db, p: Id, id: Id, up: Option<Upload>)
    requires id !in db.invoices
    ensures FolderOf(CreateInvoice(db, p, id, up).Else(db), p) != FolderOf(db, p) <==> p in db.projects
  {
    hide FolderOf;
    RowsOfFolder(db, p);
    var db' := CreateInvoice(db, p, id, up).Else(db);
    RowsOfFolder(db', p);
    assert id !in FolderOf(db, p).invoices && (p in db.projects ==> id in FolderOf(db', p).invoices);
  }

  lemma EditInvoiceExactly(db: Db, i: Id, up: Option<Upload>, now: Moment, p: Id)
    requires OfInvoice(db, i) == Some(p)
    ensures FolderOf(EditInvoice(db, i, up, now).Else(db), p) != FolderOf(db, p) <==>
      db.invoices[i].status.Rank() < 2 && up.Some? && db.invoices[i].file != FileId(up)
  {
    hide FolderOf, InsertFile, MarkDeleted, FilesOnly;
    var db' := EditInvoice(db, i, up, now).Else(db);
    RowsOfFolder(db, p);
    RowsOfFolder(db', p);
    if db.invoices[i].status.Rank() < 2 && up.Some? {
      InvoiceNow(db, i, up, now);
      if db.invoices[i].file == FileId(up) {
        assert db'.invoices == db.invoices;
        EditInvoiceOnly(db, i, up, now);
        SameFolder(db, db', p);
      }
    }
  }

  lemma InvoiceNow(db: Db, i: Id, up: Option<Upload>, now: Moment)
    requires i in db.invoices && db.invoices[i].status.Rank() < 2 && up.Some?
    ensures EditInvoice(db, i, up, now).Else(db).invoices == db.invoices[i := db.invoices[i].(file := FileId(up))]
  {
    hide InsertFile, MarkDeleted;
    InsertFileOnly(db, up);
    if db.invoices[i].file.Some? {
      MarkDeletedOnly(InsertFile(db, up), {db.invoices[i].file.value}, now);
    }
  }

  lemma SameFolder(db: Db, db': Db, p: Id)
    requires FilesOnly(db, db') && db'.invoices == db.invoices
    ensures FolderOf(db', p) == FolderOf(db, p)
  {
    hide FolderOf, Apart;
    InvoicesApart(db, db', p);
    ApartMeans(db, db', p);
  }

  lemma MoveInvoiceExactly(db: Db, i: Id, to: InvoiceStatus, p: Id)
    requires OfInvoice(db, i) == Some(p)
    ensures FolderOf(SetInvoiceStatus(db, i, to).Else(db), p) != FolderOf(db, p) <==> InvoiceTransition(db.invoices[i].status, to)
  {
    hide FolderOf;
    RowsOfFolder(db, p);
    RowsOfFolder(SetInvoiceStatus(db, i, to).Else(db), p);
  }

  // ---- all of them ----

  /**
   * In every reachable state the commit of a request changes what is recorded about its project exactly
   * when the guard of that request holds of the project's folder.
   */
  lemma ChangesExactly(w: World, t: nat, p: Id)
    requires Reachable(w) && t in w.pending && w.pending[t].Request? && Target(w.db, w.pending[t].intent) == Some(p)
    ensures FolderOf(Transact(w.db, w.pending[t], w.clock).Else(w.db), p) != FolderOf(w.db, p) <==> Changes(FolderOf(w.db, p), w.pending[t])
  {
    hide Sound, FolderOf, MayFollow, OfDeliverable, OfVersion, OfInvoice, CreateVersion, DeleteProject, DeleteDeliverable, DeleteDraft,
         CreateInvoice, EditInvoice, SaveLogo, MoveVersion, Decide, Waive, SignOff, CreateProject, CreateDeliverable, SetClosed,
         EditDeliverable, SetInvoiceStatus;
    var db, r, now := w.db, w.pending[t], w.clock;
    assert Checked(r) && Fresh(w, t);
    RowsOfFolder(db, p);
    ProjectOf(db, p);
    match r.intent
    case AddProject(org, id) => AddProjectExactly(db, id, org);
    case CloseProject(q) => CloseExactly(db, q, true);
    case ReopenProject(q) => CloseExactly(db, q, false);
    case DropProject(q, _) => DropLeavesNothing(db, q, now);
    case AddDeliverable(q, required, id) => AddDeliverableExactly(db, q, id, required);
    case ChangeDeliverable(d, required) => EditDeliverableExactly(db, d, required, p);
    case DropDeliverable(d) => DropDeliverableExactly(db, d, now, p); DraftsInFolder(db, d, p);
    case AddWaiver(d, reason, id) => WaiveExactly(db, d, id, reason, now, p);
    case AddVersion(d, reasonOk, id, file) => CreateVersionExactly(db, d, id, UploadOf(file, r.upload), reasonOk, p);
    case Share(v) => MoveExactly(db, v, r.seen.state, Shared, p);
    case Withdraw(v) => MoveExactly(db, v, r.seen.state, Withdrawn, p);
    case DropVersion(v) => DeleteDraftExactly(db, v, r.seen.file, now, p);
    case Answer(v, to, id) => DecideExactly(db, v, to, id, p);
    case Sign(q, _, id) => SignExactly(db, q, id, r.seen.rows);
    case AddInvoice(q, id, file) => AddInvoiceExactly(db, q, id, UploadOf(file, r.upload));
    case ChangeInvoice(i, file) => EditInvoiceExactly(db, i, UploadOf(file, r.upload), now, p);
    case MoveInvoice(i, to) => MoveInvoiceExactly(db, i, to, p);
    case SaveSettings(file) =>
  }

  lemma DraftsInFolder(db: Db, d: Id, p: Id)
    requires OfDeliverable(db, d) == Some(p)
    ensures
      var vs := FolderOf(db, p).versions;
      (forall v | v in vs && vs[v].deliverable == d :: vs[v].state.Draft?) <==>
        (forall v | v in db.versions && db.versions[v].deliverable == d :: db.versions[v].state.Draft?)
  {
    hide FolderOf;
    RowsOfFolder(db, p);
    var vs := FolderOf(db, p).versions;
    forall v | v in db.versions && db.versions[v].deliverable == d
      ensures v in vs
    {
    }
  }
}
