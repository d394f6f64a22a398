/**
 * Approvals and sign-offs are permanent (internal/web/deliverables.go, internal/web/portal.go): a
 * final version and its decision stay until their project is deleted, so every sign-off snapshot
 * stays true, even when other requests commit between reading the checklist and recording it.
 */
module Signoffs {
  import opened Basics
  import opened Timestamps
  import opened JobTable
  import opened Domain
  import opened Schema
  import opened Requests
  import opened Identity
  import opened Approval

  // ---- final versions stay ----

  /** The project of v, where it is known, still exists in db'. */
  predicate Living(db: Db, db': Db, v: Id)
    requires v in db.versions
  {
    && db.versions[v].deliverable in db.deliverables
    && db.deliverables[db.versions[v].deliverable].project in db'.projects
  }

  ghost predicate FinalKept(db: Db, db': Db) {
    forall v | v in db.versions && db.versions[v].state.Final() && Living(db, db', v) ::
      && v in db'.versions && db'.versions[v] == db.versions[v]
      && db.versions[v].deliverable in db'.deliverables
      && db'.deliverables[db.versions[v].deliverable].project == db.deliverables[db.versions[v].deliverable].project
  }

  ghost predicate DecisionsKept(db: Db, db': Db) {
    forall c | c in db.decisions && db.decisions[c].version in db.versions && Living(db, db', db.decisions[c].version) ::
      c in db'.decisions && db'.decisions[c] == db.decisions[c]
  }

  ghost predicate Permanent(db: Db, db': Db) { FinalKept(db, db') && DecisionsKept(db, db') }

  lemma SameTables(db: Db, db': Db)
    requires forall v | v in db.versions :: v in db'.versions && db'.versions[v] == db.versions[v]
    requires forall d | d in db.deliverables :: d in db'.deliverables && db'.deliverables[d].project == db.deliverables[d].project
    requires forall c | c in db.decisions :: c in db'.decisions && db'.decisions[c] == db.decisions[c]
    ensures Permanent(db, db')
  {
  }

  lemma CreateVersionPermanent(db: Db, d: Id, id: Id, up: Option<Upload>, reasonOk: bool)
    requires id !in db.versions
    ensures Permanent(db, CreateVersion(db, d, id, up, reasonOk).Else(db))
  {
    hide NewestOf, Permanent;
    SameTables(db, CreateVersion(db, d, id, up, reasonOk).Else(db));
  }

  lemma MovePermanent(db: Db, v: Id, from: VersionState, to: VersionState)
    requires !from.Final()
    ensures Permanent(db, MoveVersion(db, v, from, to).Else(db))
  {
  }

  lemma DecidePermanent(db: Db, v: Id, to: VersionState, id: Id)
    requires id !in db.decisions
    ensures Permanent(db, Decide(db, v, to, id).Else(db))
  {
  }

  lemma DeleteDraftPermanent(db: Db, v: Id, file: Option<Id>, now: Instant)
    ensures Permanent(db, DeleteDraft(db, v, file, now).Else(db))
  {
    hide HasDecision;
  }

  lemma DeleteDeliverablePermanent(db: Db, d: Id, now: Instant)
    ensures Permanent(db, DeleteDeliverable(db, d, now).Else(db))
  {
    hide HasDecision, FilesOf;
    var vs := set v | v in db.versions && Belongs(db, v, d);
    forall v | v in db.versions && db.versions[v].state.Final() && db.versions[v].deliverable == d
      ensures v in vs && db.versions[v].state != Draft
    {
    }
  }

  lemma DeleteProjectPermanent(db: Db, p: Id, now: Instant)
    ensures Permanent(db, DeleteProject(db, p, now).Else(db))
  {
    hide DeleteProject;
    DeleteProjectVersions(db, p, now);
  }

  lemma DeleteProjectVersions(db: Db, p: Id, now: Instant)
    ensures
      var r := DeleteProject(db, p, now);
      r.Committed? ==>
        && p !in r.db.projects
        && (forall v | v in db.versions && !InProject(db, v, p) :: v in r.db.versions && r.db.versions[v] == db.versions[v])
        && (forall c | c in db.decisions && !InProject(db, db.decisions[c].version, p) :: c in r.db.decisions && r.db.decisions[c] == db.decisions[c])
        && (forall d | d in db.deliverables && db.deliverables[d].project != p :: d in r.db.deliverables && r.db.deliverables[d] == db.deliverables[d])
  {
    hide HasDecision, FilesOf;
  }

  lemma TransactPermanent(w: World, t: nat)
    requires Reachable(w) && t in w.pending && w.pending[t].Request?
    ensures Permanent(w.db, Transact(w.db, w.pending[t], w.clock).Else(w.db))
  {
    hide Sound, Permanent, CreateVersion, DeleteProject, DeleteDeliverable, DeleteDraft, CreateInvoice, EditInvoice, SaveLogo,
         MoveVersion, Decide;
    var db, r, now := w.db, w.pending[t], w.clock;
    var db' := Transact(db, r, now).Else(db);
    assert Checked(r) && Fresh(w, t);
    match r.intent
    case AddVersion(d, reasonOk, id, file) => CreateVersionPermanent(db, d, id, UploadOf(file, r.upload), reasonOk);
    case Share(v) => if r.seen.SeenVersion? { MovePermanent(db, v, r.seen.state, Shared); } else { SameTables(db, db'); }
    case Withdraw(v) => if r.seen.SeenVersion? { MovePermanent(db, v, r.seen.state, Withdrawn); } else { SameTables(db, db'); }
    case DropVersion(v) => if r.seen.SeenVersion? { DeleteDraftPermanent(db, v, r.seen.file, now); } else { SameTables(db, db'); }
    case Answer(v, to, id) => DecidePermanent(db, v, to, id);
    case DropDeliverable(d) => DeleteDeliverablePermanent(db, d, now);
    case DropProject(p, _) => DeleteProjectPermanent(db, p, now);
    case AddInvoice(p, id, file) => AddInvoiceOnly(db, p, id, UploadOf(file, r.upload)); SameTables(db, db');
    case ChangeInvoice(i, file) => EditInvoiceOnly(db, i, UploadOf(file, r.upload), now); SameTables(db, db');
    case SaveSettings(file) =>
      if r.seen.SeenLogo? {
        SaveLogoOnly(db, UploadOf(file, r.upload), r.seen.logo, now);
      }
      SameTables(db, db');
    case _ => SameTables(db, db');
  }

  /** No step touches a final version or its decision while the project exists. */
  lemma StepPermanent(w: World, s: Step)
    requires Reachable(w)
    ensures Permanent(w.db, Do(w, s).db)
  {
    hide Sound, Distinct, Permanent, Transact, Due, Held, DoRead, NoticeOf;
    if s.Commit? && s.ticket in w.pending && w.pending[s.ticket].Request? {
      TransactPermanent(w, s.ticket);
    } else {
      ReadOnly(w, s);
      SameTables(w.db, Do(w, s).db);
    }
  }

  /** Only commits and purges change the database, and purges only its files. */
  lemma ReadOnly(w: World, s: Step)
    requires !(s.Commit? && s.ticket in w.pending && w.pending[s.ticket].Request?)
    ensures Do(w, s).db == w.db.(files := Do(w, s).db.files)
  {
    hide See, Due, Held, Transact, NewIds;
  }

  // ---- and stay for good ----

  /** An id that was used and is gone from the projects. */
  ghost predicate Retired(w: World, p: Id) {
    && p in w.usedIds && p !in w.db.projects
    && forall t | t in w.pending && w.pending[t].Request? :: p !in NewIds(w.pending[t].intent)
  }

  /** The same projects exist, and the sign-offs are untouched. */
  ghost predicate SameRecords(db: Db, db': Db) {
    db'.projects.Keys == db.projects.Keys && db'.signoffs == db.signoffs
  }

  lemma UploadRecords(db: Db, r: Pending, now: Moment)
    requires r.Request? && TakesUpload(r.intent)
    ensures SameRecords(db, Transact(db, r, now).Else(db))
  {
    hide CreateVersion, DeleteDeliverable, DeleteDraft, CreateInvoice, EditInvoice, SaveLogo, DeleteProject, Decide, MoveVersion,
         SetClosed, SignOff, Waive, CreateDeliverable, EditDeliverable, SetInvoiceStatus, FilesOnly, UploadOf;
    var db' := Transact(db, r, now).Else(db);
    match r.intent
    case AddVersion(d, reasonOk, id, file) => CreateVersionRecords(db, d, id, UploadOf(file, r.upload), reasonOk);
    case AddInvoice(q, id, file) => AddInvoiceOnly(db, q, id, UploadOf(file, r.upload)); FilesOnlyMeans(db, db');
    case ChangeInvoice(i, file) => EditInvoiceOnly(db, i, UploadOf(file, r.upload), now); FilesOnlyMeans(db, db');
    case SaveSettings(file) =>
      if r.seen.SeenLogo? {
        SaveLogoOnly(db, UploadOf(file, r.upload), r.seen.logo, now);
        FilesOnlyMeans(db, db');
      }
  }

  predicate OnVersion(intent: Intent) {
    intent.Share? || intent.Withdraw? || intent.Answer? || intent.DropVersion? || intent.DropDeliverable?
  }

  lemma VersionRecords(db: Db, r: Pending, now: Moment)
    requires r.Request? && OnVersion(r.intent)
    ensures SameRecords(db, Transact(db, r, now).Else(db))
  {
    hide CreateVersion, DeleteDeliverable, DeleteDraft, CreateInvoice, EditInvoice, SaveLogo, DeleteProject, Decide, MoveVersion,
         SetClosed, SignOff, Waive, CreateDeliverable, EditDeliverable, SetInvoiceStatus;
    match r.intent
    case Share(v) => if r.seen.SeenVersion? { MoveRecords(db, v, r.seen.state, Shared); }
    case Withdraw(v) => if r.seen.SeenVersion? { MoveRecords(db, v, r.seen.state, Withdrawn); }
    case Answer(v, to, id) => DecideRecords(db, v, to, id);
    case DropVersion(v) => if r.seen.SeenVersion? { DeleteDraftRecords(db, v, r.seen.file, now); }
    case DropDeliverable(d) => DeleteDeliverableRecords(db, d, now);
  }

  /** Only three transactions change which projects exist or what is signed off. */
  lemma SameRecordsAfter(db: Db, r: Pending, now: Moment)
    requires r.Request? && !r.intent.AddProject? && !r.intent.DropProject? && !r.intent.Sign?
    ensures SameRecords(db, Transact(db, r, now).Else(db))
  {
    hide CreateVersion, DeleteDeliverable, DeleteDraft, CreateInvoice, EditInvoice, SaveLogo, DeleteProject, Decide, MoveVersion,
         SetClosed, SignOff, Waive, CreateDeliverable, EditDeliverable, SetInvoiceStatus;
    if TakesUpload(r.intent) {
      UploadRecords(db, r, now);
    } else if OnVersion(r.intent) {
      VersionRecords(db, r, now);
    } else {
      match r.intent
      case CloseProject(p) => SetClosedRecords(db, p, true);
      case ReopenProject(p) => SetClosedRecords(db, p, false);
      case AddDeliverable(p, required, id) => DeliverableRecords(db, p, id, required);
      case ChangeDeliverable(d, required) => DeliverableRecords(db, d, d, required);
      case AddWaiver(d, reason, id) => WaiveRecords(db, d, id, reason, now);
      case MoveInvoice(i, to) => InvoiceRecords(db, i, to);
    }
  }

  lemma SetClosedRecords(db: Db, p: Id, closed: bool)
    ensures SameRecords(db, SetClosed(db, p, closed).Else(db))
  {
  }

  lemma DeliverableRecords(db: Db, x: Id, id: Id, required: bool)
    ensures SameRecords(db, CreateDeliverable(db, x, id, required).Else(db))
    ensures SameRecords(db, EditDeliverable(db, x, required).Else(db))
  {
  }

  lemma WaiveRecords(db: Db, d: Id, id: Id, reason: string, now: Instant)
    ensures SameRecords(db, Waive(db, d, id, reason, now).Else(db))
  {
  }

  lemma InvoiceRecords(db: Db, i: Id, to: InvoiceStatus)
    ensures SameRecords(db, SetInvoiceStatus(db, i, to).Else(db))
  {
  }

  lemma CreateVersionRecords(db: Db, d: Id, id: Id, up: Option<Upload>, reasonOk: bool)
    ensures SameRecords(db, CreateVersion(db, d, id, up, reasonOk).Else(db))
  {
  }

  lemma MoveRecords(db: Db, v: Id, from: VersionState, to: VersionState)
    ensures SameRecords(db, MoveVersion(db, v, from, to).Else(db))
  {
  }

  lemma DecideRecords(db: Db, v: Id, to: VersionState, id: Id)
    ensures SameRecords(db, Decide(db, v, to, id).Else(db))
  {
    MoveRecords(db, v, Shared, to);
  }

  lemma DeleteDraftRecords(db: Db, v: Id, file: Option<Id>, now: Instant)
    ensures SameRecords(db, DeleteDraft(db, v, file, now).Else(db))
  {
    hide HasDecision;
  }

  lemma DeleteDeliverableRecords(db: Db, d: Id, now: Instant)
    ensures SameRecords(db, DeleteDeliverable(db, d, now).Else(db))
  {
    hide HasDecision, FilesOf;
  }

  lemma DeleteProjectRecords(db: Db, p: Id, now: Instant)
    ensures
      var db' := DeleteProject(db, p, now).Else(db);
      && db'.projects.Keys <= db.projects.Keys
      && forall s | s in db'.signoffs :: s in db.signoffs && db'.signoffs[s] == db.signoffs[s]
  {
    hide HasDecision, FilesOf, InProject;
  }

  /** A commit creates at most the project its request drew an id for, and signs off only what a sign-off carried. */
  lemma RecordsAfter(db: Db, r: Pending, now: Moment)
    requires r.Request?
    ensures
      var db' := Transact(db, r, now).Else(db);
      && db'.projects.Keys <= db.projects.Keys + NewIds(r.intent)
      && forall s | s in db'.signoffs ::
           || (s in db.signoffs && db'.signoffs[s] == db.signoffs[s])
           || (r.intent.Sign? && r.seen.SeenRows? && db'.signoffs[s] == Signoff(r.intent.project, r.seen.rows))
  {
    hide CreateVersion, DeleteDeliverable, DeleteDraft, CreateInvoice, EditInvoice, SaveLogo, DeleteProject, Decide, MoveVersion,
         SetClosed, Waive, CreateDeliverable, EditDeliverable, SetInvoiceStatus, UploadOf;
    if r.intent.DropProject? {
      DeleteProjectRecords(db, r.intent.project, now);
    } else if !r.intent.AddProject? && !r.intent.Sign? {
      SameRecordsAfter(db, r, now);
    }
  }

  lemma RetiredStep(w: World, s: Step, p: Id)
    requires Retired(w, p)
    ensures Retired(Do(w, s), p)
  {
    hide Transact, NewIds, See, Due, Held, NoticeOf;
    if s.Commit? && s.ticket in w.pending && w.pending[s.ticket].Request? {
      RecordsAfter(w.db, w.pending[s.ticket], w.clock);
    }
  }

  lemma {:induction false} RetiredForever(w: World, steps: seq<Step>, p: Id)
    requires Retired(w, p)
    ensures p !in Run(w, steps).db.projects
    decreases |steps|
  {
    if steps != [] {
      RetiredStep(w, steps[0], p);
      RetiredForever(Do(w, steps[0]), steps[1..], p);
    }
  }

  /** A project that a step takes away is retired. */
  lemma GoneIsRetired(w: World, s: Step, p: Id)
    requires Distinct(w) && p in w.db.projects && p !in Do(w, s).db.projects
    ensures Retired(Do(w, s), p)
  {
    hide Transact, See, Due, Held, NoticeOf, NewIds;
    forall t | t in w.pending && w.pending[t].Request?
      ensures p !in NewIds(w.pending[t].intent)
    {
      assert Fresh(w, t);
    }
  }

  /** A final version is there unchanged, in its project. */
  ghost predicate Same(db: Db, db': Db, v: Id, p: Id)
    requires v in db.versions
  {
    InProject(db', v, p) && db'.versions[v] == db.versions[v]
  }

  /**
   * The approval record is permanent: a version that is approved, withdrawn or sent back for revision
   * is found unchanged, with its decision, after any further steps, unless its project was deleted.
   */
  lemma {:induction false} FinalForever(w: World, steps: seq<Step>, v: Id, p: Id)
    requires Reachable(w) && InProject(w.db, v, p) && w.db.versions[v].state.Final() && p in w.db.projects
    ensures
      var db' := Run(w, steps).db;
      p in db'.projects ==> Same(w.db, db', v, p)
    decreases |steps|
  {
    hide Sound, Distinct;
    if steps != [] {
      var s, u := steps[0], Do(w, steps[0]);
      StepPermanent(w, s);
      ReachableDo(w, s);
      if p in u.db.projects {
        FinalForever(u, steps[1..], v, p);
      } else {
        GoneIsRetired(w, s, p);
        RetiredForever(u, steps[1..], p);
      }
    }
  }

  // ---- sign-off snapshots ----

  /** What a snapshot row that lists an approval claims: that very version of the project is approved. */
  ghost predicate RowTrue(db: Db, p: Id, r: Row) {
    r.state == Some(Approved) ==>
      exists v :: InProject(db, v, p) && Approves(db.versions[v], r)
  }

  predicate Approves(x: Version, r: Row) {
    x.deliverable == r.deliverable && x.number == r.number && x.state.Approved?
  }

  lemma RowStaysTrue(db: Db, db': Db, p: Id, r: Row)
    requires RowTrue(db, p, r) && Permanent(db, db') && p in db'.projects
    ensures RowTrue(db', p, r)
  {
    if r.state == Some(Approved) {
      var v :| InProject(db, v, p) && Approves(db.versions[v], r);
      assert Living(db, db', v);
      assert InProject(db', v, p) && Approves(db'.versions[v], r);
    }
  }

  /** The rows that loadHandoff reads are true when it reads them. */
  lemma FreshRowTrue(db: Db, p: Id, d: Id)
    requires Required(db, d, p)
    ensures RowTrue(db, p, RowOf(db, d))
  {
    hide WaiverOf;
    NewestExists(db, d);
    var r := RowOf(db, d);
    if r.state == Some(Approved) {
      var v := NewestOf(db, d).value;
      assert InProject(db, v, p) && Approves(db.versions[v], r);
    }
  }

  ghost predicate RowsTrue(db: Db, p: Id, rows: seq<Row>) {
    AllSatisfied(rows) && (p in db.projects ==> forall r | r in rows :: RowTrue(db, p, r))
  }

  /** A project id that names a project now or never will again. */
  ghost predicate Known(w: World, p: Id) { p in w.db.projects || Retired(w, p) }

  ghost predicate SignOk(w: World, t: nat)
    requires t in w.pending
  {
    var r := w.pending[t];
    r.Request? && r.intent.Sign? && r.seen.SeenRows? ==>
      RowsTrue(w.db, r.intent.project, r.seen.rows) && Known(w, r.intent.project)
  }

  /** Recorded snapshots and those about to be recorded are true. */
  ghost predicate Truthful(w: World) {
    && (forall s | s in w.db.signoffs :: RowsTrue(w.db, w.db.signoffs[s].project, w.db.signoffs[s].rows))
    && (forall t | t in w.pending :: SignOk(w, t))
  }

  lemma KnownStep(w: World, s: Step, p: Id)
    requires Distinct(w) && Known(w, p)
    ensures Known(Do(w, s), p)
  {
    hide Do, Retired, Distinct;
    if p in w.db.projects {
      if p !in Do(w, s).db.projects {
        GoneIsRetired(w, s, p);
      }
    } else {
      RetiredStep(w, s, p);
    }
  }

  lemma RowsStayTrue(w: World, s: Step, p: Id, rows: seq<Row>)
    requires Reachable(w) && RowsTrue(w.db, p, rows) && Known(w, p)
    ensures RowsTrue(Do(w, s).db, p, rows) && Known(Do(w, s), p)
  {
    hide Sound, Distinct, Checked, Do, RowTrue, Permanent, AllSatisfied;
    StepPermanent(w, s);
    KnownStep(w, s, p);
    var db' := Do(w, s).db;
    if p in db'.projects {
      if p !in w.db.projects {
        RetiredStep(w, s, p);
      }
      forall r | r in rows
        ensures RowTrue(db', p, r)
      {
        RowStaysTrue(w.db, db', p, r);
      }
    }
  }

  lemma TruthfulCommit(w: World, t: nat)
    requires Reachable(w) && Truthful(w) && t in w.pending && w.pending[t].Request?
    ensures Truthful(Do(w, Commit(t)))
  {
    hide Sound, Distinct, Checked, Transact, RowsTrue, Known, NoticeOf;
    var v := Do(w, Commit(t));
    RecordsAfter(w.db, w.pending[t], w.clock);
    forall s | s in v.db.signoffs
      ensures RowsTrue(v.db, v.db.signoffs[s].project, v.db.signoffs[s].rows)
    {
      if s in w.db.signoffs && v.db.signoffs[s] == w.db.signoffs[s] {
        SignoffKnown(w, s);
      } else {
        assert SignOk(w, t);
      }
      RowsStayTrue(w, Commit(t), v.db.signoffs[s].project, v.db.signoffs[s].rows);
    }
    forall u | u in v.pending
      ensures SignOk(v, u)
    {
      if v.pending[u] == w.pending[u] {
        SignOkStays(w, Commit(t), u);
      }
    }
  }

  lemma SignoffKnown(w: World, s: Id)
    requires Sound(w.db) && s in w.db.signoffs
    ensures Known(w, w.db.signoffs[s].project)
  {
    hide Numbered, Decided;
  }

  /** A pending sign-off stays truthful while other requests commit. */
  lemma SignOkStays(w: World, s: Step, t: nat)
    requires Reachable(w) && t in w.pending && SignOk(w, t)
    requires t in Do(w, s).pending && Do(w, s).pending[t] == w.pending[t]
    ensures SignOk(Do(w, s), t)
  {
    hide Sound, Distinct, Checked, Do, RowsTrue, Known;
    var r := w.pending[t];
    if r.Request? && r.intent.Sign? && r.seen.SeenRows? {
      RowsStayTrue(w, s, r.intent.project, r.seen.rows);
    }
  }

  lemma RowsOfTrue(db: Db, order: seq<Id>, p: Id)
    requires Lists(db, order, p) && AllSatisfied(RowsOf(db, order))
    ensures RowsTrue(db, p, RowsOf(db, order))
  {
    hide RowTrue, RowOf, AllSatisfied;
    var rows := RowsOf(db, order);
    forall r | r in rows
      ensures RowTrue(db, p, r)
    {
      var i :| 0 <= i < |order| && r == RowOf(db, order[i]);
      assert order[i] in order;
      FreshRowTrue(db, p, order[i]);
    }
  }

  lemma TruthfulRead(w: World, t: nat, intent: Intent)
    requires Reachable(w) && Truthful(w)
    ensures Truthful(Do(w, Read(t, intent)))
  {
    hide Sound, Distinct, Checked, RowsTrue, NewIds, RowsOf, Lists, AllSatisfied, Known;
    var v := Do(w, Read(t, intent));
    forall u | u in v.pending
      ensures SignOk(v, u)
    {
      if u in w.pending && v.pending[u] == w.pending[u] {
        SignOkStays(w, Read(t, intent), u);
      } else if intent.Sign? {
        RowsOfTrue(w.db, intent.order, intent.project);
        assert Known(v, intent.project) by { InProjectsKnown(v, intent.project); }
      }
    }
  }

  lemma InProjectsKnown(w: World, p: Id)
    requires p in w.db.projects
    ensures Known(w, p)
  {
  }

  lemma TruthfulDo(w: World, s: Step)
    requires Reachable(w) && Truthful(w)
    ensures Truthful(Do(w, s))
  {
    hide Sound, Distinct, Checked, RowsTrue, SignOk, Transact, DoRead, Due, Held, NoticeOf;
    if s.Commit? && s.ticket in w.pending && w.pending[s.ticket].Request? {
      TruthfulCommit(w, s.ticket);
    } else if s.Read? {
      TruthfulRead(w, s.ticket, s.intent);
    } else {
      TruthfulOther(w, s);
    }
  }

  lemma TruthfulOther(w: World, s: Step)
    requires Reachable(w) && Truthful(w) && !s.Read?
    requires !(s.Commit? && s.ticket in w.pending && w.pending[s.ticket].Request?)
    ensures Truthful(Do(w, s))
  {
    hide Sound, Distinct, Checked, RowsTrue, Transact, DoRead, Due, Held, NoticeOf, Known;
    var v := Do(w, s);
    ReadOnly(w, s);
    forall i | i in v.db.signoffs
      ensures RowsTrue(v.db, v.db.signoffs[i].project, v.db.signoffs[i].rows)
    {
      SignoffKnown(w, i);
      RowsStayTrue(w, s, v.db.signoffs[i].project, v.db.signoffs[i].rows);
    }
    forall u | u in v.pending
      ensures SignOk(v, u)
    {
      if u in w.pending && v.pending[u] == w.pending[u] {
        SignOkStays(w, s, u);
      }
    }
  }

  lemma {:induction false} TruthfulRun(w: World, steps: seq<Step>)
    requires Reachable(w) && Truthful(w)
    ensures Reachable(Run(w, steps)) && Truthful(Run(w, steps))
    decreases |steps|
  {
    hide Reachable, Truthful, Do;
    if steps != [] {
      ReachableDo(w, steps[0]);
      TruthfulDo(w, steps[0]);
      TruthfulRun(Do(w, steps[0]), steps[1..]);
    }
  }

  /** v is a version of p that is approved, under r's number, by exactly one decision saying so. */
  ghost predicate Backed(db: Db, p: Id, r: Row, v: Id) {
    && InProject(db, v, p) && Approves(db.versions[v], r)
    && exists c :: c in db.decisions && db.decisions[c] == Decision(v, Approved)
  }

  /**
   * Sign-off records stay true. In every reachable state each recorded snapshot has at least one row,
   * every row is approved or waived, and each row that lists an approval names a version that is
   * approved in this very state, with the matching decision.
   */
  lemma SnapshotsTrue(clock: Moment, steps: seq<Step>, s: Id, r: Row)
    ensures
      var db := Run(Start(clock), steps).db;
      s in db.signoffs && r in db.signoffs[s].rows ==>
        && r.Satisfied()
        && (r.state == Some(Approved) ==> exists v :: Backed(db, db.signoffs[s].project, r, v))
    ensures
      var db := Run(Start(clock), steps).db;
      s in db.signoffs ==> db.signoffs[s].rows != []
  {
    hide Run, Distinct, Checked;
    StartReachable(clock);
    TruthfulRun(Start(clock), steps);
    var db := Run(Start(clock), steps).db;
    if s in db.signoffs && r in db.signoffs[s].rows && r.state == Some(Approved) {
      RowBacked(db, db.signoffs[s].project, r);
    }
  }

  lemma RowBacked(db: Db, p: Id, r: Row)
    requires Sound(db) && RowTrue(db, p, r) && r.state == Some(Approved)
    ensures exists v :: Backed(db, p, r, v)
  {
    hide Linked, Numbered;
    var v :| InProject(db, v, p) && Approves(db.versions[v], r);
    assert DecisionFor(db.decisions, v);
    assert Backed(db, p, r, v);
  }
}
