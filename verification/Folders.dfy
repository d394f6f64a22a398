/**
 * What belongs to a project, and the frame of every request: a request changes nothing outside the
 * one project it is about (internal/web/authz.go resolves that project before anything is written).
 */
module Folders {
  import opened Basics
  import opened Timestamps
  import opened JobTable
  import opened Domain
  import opened Schema
  import opened Requests
  import opened Identity
  import opened Approval

  predicate DeliverableIn(db: Db, d: Id, p: Id) { d in db.deliverables && db.deliverables[d].project == p }
  predicate DecisionIn(db: Db, c: Id, p: Id) { c in db.decisions && InProject(db, db.decisions[c].version, p) }
  predicate WaiverIn(db: Db, w: Id, p: Id) { w in db.waivers && DeliverableIn(db, db.waivers[w].deliverable, p) }
  predicate SignoffIn(db: Db, s: Id, p: Id) { s in db.signoffs && db.signoffs[s].project == p }
  predicate InvoiceIn(db: Db, i: Id, p: Id) { i in db.invoices && db.invoices[i].project == p }

  /** Everything recorded about one project. */
  datatype Folder = Folder(
    project: Option<Project>,
    deliverables: map<Id, Deliverable>,
    versions: map<Id, Version>,
    decisions: map<Id, Decision>,
    waivers: map<Id, Waiver>,
    signoffs: map<Id, Signoff>,
    invoices: map<Id, Invoice>)

  function FolderOf(db: Db, p: Id): Folder {
    Folder(
      if p in db.projects then Some(db.projects[p]) else None,
      map d | d in db.deliverables && DeliverableIn(db, d, p) :: db.deliverables[d],
      map v | v in db.versions && InProject(db, v, p) :: db.versions[v],
      map c | c in db.decisions && DecisionIn(db, c, p) :: db.decisions[c],
      map w | w in db.waivers && WaiverIn(db, w, p) :: db.waivers[w],
      map s | s in db.signoffs && SignoffIn(db, s, p) :: db.signoffs[s],
      map i | i in db.invoices && InvoiceIn(db, i, p) :: db.invoices[i])
  }

  // ---- row by row ----

  ghost predicate SameProject(db: Db, db': Db, p: Id) {
    (p in db.projects <==> p in db'.projects) && (p in db.projects && p in db'.projects ==> db'.projects[p] == db.projects[p])
  }

  ghost predicate SameDeliverables(db: Db, db': Db, p: Id) {
    forall d :: (DeliverableIn(db, d, p) <==> DeliverableIn(db', d, p))
      && (DeliverableIn(db, d, p) && d in db'.deliverables ==> db'.deliverables[d] == db.deliverables[d])
  }

  ghost predicate SameVersions(db: Db, db': Db, p: Id) {
    forall v :: (InProject(db, v, p) <==> InProject(db', v, p))
      && (InProject(db, v, p) && v in db'.versions ==> db'.versions[v] == db.versions[v])
  }

  ghost predicate SameDecisions(db: Db, db': Db, p: Id) {
    forall c :: (DecisionIn(db, c, p) <==> DecisionIn(db', c, p))
      && (DecisionIn(db, c, p) && c in db'.decisions ==> db'.decisions[c] == db.decisions[c])
  }

  ghost predicate SameWaivers(db: Db, db': Db, p: Id) {
    forall w :: (WaiverIn(db, w, p) <==> WaiverIn(db', w, p))
      && (WaiverIn(db, w, p) && w in db'.waivers ==> db'.waivers[w] == db.waivers[w])
  }

  ghost predicate SameSignoffs(db: Db, db': Db, p: Id) {
    forall s :: (SignoffIn(db, s, p) <==> SignoffIn(db', s, p))
      && (SignoffIn(db, s, p) && s in db'.signoffs ==> db'.signoffs[s] == db.signoffs[s])
  }

  ghost predicate SameInvoices(db: Db, db': Db, p: Id) {
    forall i :: (InvoiceIn(db, i, p) <==> InvoiceIn(db', i, p))
      && (InvoiceIn(db, i, p) && i in db'.invoices ==> db'.invoices[i] == db.invoices[i])
  }

  ghost predicate Apart(db: Db, db': Db, p: Id) {
    && SameProject(db, db', p) && SameDeliverables(db, db', p) && SameVersions(db, db', p) && SameDecisions(db, db', p)
    && SameWaivers(db, db', p) && SameSignoffs(db, db', p) && SameInvoices(db, db', p)
  }

  lemma SameRows(db: Db, db': Db, p: Id)
    requires SameDeliverables(db, db', p) && SameVersions(db, db', p) && SameDecisions(db, db', p)
    ensures FolderOf(db', p).deliverables == FolderOf(db, p).deliverables
    ensures FolderOf(db', p).versions == FolderOf(db, p).versions
    ensures FolderOf(db', p).decisions == FolderOf(db, p).decisions
  {
    hide InProject, DeliverableIn, DecisionIn;
    InMeans(db, p);
    InMeans(db', p);
  }

  lemma SameOtherRows(db: Db, db': Db, p: Id)
    requires SameProject(db, db', p) && SameWaivers(db, db', p) && SameSignoffs(db, db', p) && SameInvoices(db, db', p)
    ensures FolderOf(db', p).project == FolderOf(db, p).project
    ensures FolderOf(db', p).waivers == FolderOf(db, p).waivers
    ensures FolderOf(db', p).signoffs == FolderOf(db, p).signoffs
    ensures FolderOf(db', p).invoices == FolderOf(db, p).invoices
  {
    hide WaiverIn, SignoffIn, InvoiceIn;
    InMeans(db, p);
    InMeans(db', p);
  }

  lemma InMeans(db: Db, p: Id)
    ensures forall d :: DeliverableIn(db, d, p) ==> d in db.deliverables
    ensures forall v :: InProject(db, v, p) ==> v in db.versions
    ensures forall c :: DecisionIn(db, c, p) ==> c in db.decisions
    ensures forall w :: WaiverIn(db, w, p) ==> w in db.waivers
    ensures forall s :: SignoffIn(db, s, p) ==> s in db.signoffs
    ensures forall i :: InvoiceIn(db, i, p) ==> i in db.invoices
  {
  }

  lemma ApartMeans(db: Db, db': Db, p: Id)
    requires Apart(db, db', p)
    ensures FolderOf(db', p) == FolderOf(db, p)
  {
    hide FolderOf, SameProject, SameDeliverables, SameVersions, SameDecisions, SameWaivers, SameSignoffs, SameInvoices;
    SameRows(db, db', p);
    SameOtherRows(db, db', p);
  }

  // ---- each transaction ----

  /** The project a request is about, seen at commit; none when what it is about is gone. */
  function Target(db: Db, intent: Intent): Option<Id> {
    match intent
    case AddProject(_, id) => Some(id)
    case CloseProject(p) => Some(p)
    case ReopenProject(p) => Some(p)
    case DropProject(p, _) => Some(p)
    case AddDeliverable(p, _, _) => Some(p)
    case ChangeDeliverable(d, _) => OfDeliverable(db, d)
    case DropDeliverable(d) => OfDeliverable(db, d)
    case AddWaiver(d, _, _) => OfDeliverable(db, d)
    case AddVersion(d, _, _, _) => OfDeliverable(db, d)
    case Share(v) => OfVersion(db, v)
    case Withdraw(v) => OfVersion(db, v)
    case DropVersion(v) => OfVersion(db, v)
    case Answer(v, _, _) => OfVersion(db, v)
    case Sign(p, _, _) => Some(p)
    case AddInvoice(p, _, _) => Some(p)
    case ChangeInvoice(i, _) => OfInvoice(db, i)
    case MoveInvoice(i, _) => OfInvoice(db, i)
    case SaveSettings(_) => None
  }

  function OfDeliverable(db: Db, d: Id): Option<Id> { if d in db.deliverables then Some(db.deliverables[d].project) else None }
  function OfVersion(db: Db, v: Id): Option<Id> { if v in db.versions then OfDeliverable(db, db.versions[v].deliverable) else None }
  function OfInvoice(db: Db, i: Id): Option<Id> { if i in db.invoices then Some(db.invoices[i].project) else None }

  /** Statements on the projects, sign-offs and invoices alone. */
  lemma OutlineApart(db: Db, db': Db, q: Id)
    requires db'.deliverables == db.deliverables && db'.versions == db.versions
    requires db'.decisions == db.decisions && db'.waivers == db.waivers
    requires SameProject(db, db', q) && SameSignoffs(db, db', q) && SameInvoices(db, db', q)
    ensures Apart(db, db', q)
  {
    hide SameProject, SameSignoffs, SameInvoices;
  }

  lemma OtherProject(db: Db, db': Db, q: Id)
    requires SameProject(db, db', q)
    requires db'.signoffs == db.signoffs && db'.invoices == db.invoices
    ensures SameSignoffs(db, db', q) && SameInvoices(db, db', q)
  {
  }

  lemma CreateProjectApart(db: Db, p: Id, org: Id, q: Id)
    requires p != q
    ensures Apart(db, CreateProject(db, p, org).Else(db), q)
  {
    hide Apart, SameSignoffs, SameInvoices;
    OtherProject(db, CreateProject(db, p, org).Else(db), q);
    OutlineApart(db, CreateProject(db, p, org).Else(db), q);
  }

  lemma SetClosedApart(db: Db, p: Id, closed: bool, q: Id)
    requires p != q
    ensures Apart(db, SetClosed(db, p, closed).Else(db), q)
  {
    hide Apart, SameProject, SetClosed;
    SetClosedOnly(db, p, closed, q);
    OtherProject(db, SetClosed(db, p, closed).Else(db), q);
    OutlineApart(db, SetClosed(db, p, closed).Else(db), q);
  }

  lemma SetClosedOnly(db: Db, p: Id, closed: bool, q: Id)
    requires p != q
    ensures
      var db' := SetClosed(db, p, closed).Else(db);
      SameProject(db, db', q) && db' == db.(projects := db'.projects)
  {
  }

  lemma SignOffApart(db: Db, p: Id, id: Id, rows: seq<Row>, q: Id)
    requires p != q && id !in db.signoffs
    ensures Apart(db, SignOff(db, p, id, rows).Else(db), q)
  {
    hide Apart;
    OutlineApart(db, SignOff(db, p, id, rows).Else(db), q);
  }

  lemma InvoicesApart(db: Db, db': Db, q: Id)
    requires FilesOnly(db, db') && SameInvoices(db, db', q)
    ensures Apart(db, db', q)
  {
    hide Apart, SameInvoices;
    OutlineApart(db, db', q);
  }

  lemma CreateInvoiceApart(db: Db, p: Id, id: Id, up: Option<Schema.Upload>, q: Id)
    requires p != q && id !in db.invoices
    ensures Apart(db, CreateInvoice(db, p, id, up).Else(db), q)
  {
    hide Apart;
    AddInvoiceOnly(db, p, id, up);
    InvoicesApart(db, CreateInvoice(db, p, id, up).Else(db), q);
  }

  lemma EditInvoiceApart(db: Db, i: Id, up: Option<Schema.Upload>, now: Moment, q: Id)
    requires OfInvoice(db, i) != Some(q)
    ensures Apart(db, EditInvoice(db, i, up, now).Else(db), q)
  {
    hide Apart, InsertFile, MarkDeleted, FilesOnly;
    EditInvoiceOnly(db, i, up, now);
    if up.Some? && i in db.invoices {
      InsertFileOnly(db, up);
      if db.invoices[i].file.Some? {
        MarkDeletedOnly(InsertFile(db, up), {db.invoices[i].file.value}, now);
      }
    }
    InvoicesApart(db, EditInvoice(db, i, up, now).Else(db), q);
  }

  lemma SetInvoiceStatusApart(db: Db, i: Id, to: InvoiceStatus, q: Id)
    requires OfInvoice(db, i) != Some(q)
    ensures Apart(db, SetInvoiceStatus(db, i, to).Else(db), q)
  {
    hide Apart;
    InvoicesApart(db, SetInvoiceStatus(db, i, to).Else(db), q);
  }

  lemma SaveLogoApart(db: Db, up: Option<Schema.Upload>, was: Option<Id>, now: Moment, q: Id)
    ensures Apart(db, SaveLogo(db, up, was, now).Else(db), q)
  {
    hide Apart, InsertFile, MarkDeleted, FilesOnly;
    SaveLogoOnly(db, up, was, now);
    if up.Some? {
      InsertFileOnly(db, up);
      if was.Some? {
        MarkDeletedOnly(InsertFile(db, up), {was.value}, now);
      }
    }
    InvoicesApart(db, SaveLogo(db, up, was, now).Else(db), q);
  }

  /** Adding or changing one deliverable, of another project. */
  lemma DeliverableApart(db: Db, db': Db, d: Id, q: Id)
    requires Linked(db) && d in db'.deliverables
    requires db' == db.(deliverables := db.deliverables[d := db'.deliverables[d]])
    requires db'.deliverables[d].project != q && OfDeliverable(db, d) != Some(q)
    ensures Apart(db, db', q)
  {
    assert forall x :: DeliverableIn(db', x, q) ==> x != d;
    assert forall x :: DeliverableIn(db, x, q) ==> x != d;
  }

  lemma CreateDeliverableApart(db: Db, p: Id, d: Id, required: bool, q: Id)
    requires p != q && d !in db.deliverables && Linked(db)
    ensures Apart(db, CreateDeliverable(db, p, d, required).Else(db), q)
  {
    hide Apart, Linked;
    var r := CreateDeliverable(db, p, d, required);
    if r.Committed? {
      DeliverableApart(db, r.db, d, q);
    } else {
      Itself(db, q);
    }
  }

  lemma EditDeliverableApart(db: Db, d: Id, required: bool, q: Id)
    requires Linked(db) && OfDeliverable(db, d) != Some(q)
    ensures Apart(db, EditDeliverable(db, d, required).Else(db), q)
  {
    hide Apart, Linked;
    if d in db.deliverables {
      DeliverableApart(db, EditDeliverable(db, d, required).db, d, q);
    } else {
      Itself(db, q);
    }
  }

  lemma WaiveApart(db: Db, d: Id, id: Id, reason: string, now: Moment, q: Id)
    requires OfDeliverable(db, d) != Some(q) && id !in db.waivers
    ensures Apart(db, Waive(db, d, id, reason, now).Else(db), q)
  {
  }

  /** Statements that add or change versions of other projects, and perhaps decisions on those. */
  lemma VersionsApart(db: Db, db': Db, v: Id, q: Id)
    requires Linked(db)
    requires db' == db.(versions := db'.versions, decisions := db'.decisions, files := db'.files)
    requires v in db'.versions && OfDeliverable(db, db'.versions[v].deliverable) != Some(q)
    requires v in db.versions ==> OfDeliverable(db, db.versions[v].deliverable) != Some(q)
    requires forall u | u != v :: u in db.versions <==> u in db'.versions
    requires forall u | u in db.versions && u != v :: db'.versions[u] == db.versions[u]
    requires forall c | c in db.decisions && db.decisions[c].version != v :: c in db'.decisions && db'.decisions[c] == db.decisions[c]
    requires forall c | c in db'.decisions && db'.decisions[c].version != v :: c in db.decisions && db'.decisions[c] == db.decisions[c]
    ensures Apart(db, db', q)
  {
    assert forall u :: InProject(db, u, q) ==> u != v;
    assert forall u :: InProject(db', u, q) ==> u != v;
  }

  lemma CreateVersionApart(db: Db, d: Id, id: Id, up: Option<Schema.Upload>, reasonOk: bool, q: Id)
    requires Linked(db) && OfDeliverable(db, d) != Some(q) && id !in db.versions
    ensures Apart(db, CreateVersion(db, d, id, up, reasonOk).Else(db), q)
  {
    hide NewestOf, Apart, InsertFile;
    var r := CreateVersion(db, d, id, up, reasonOk);
    if r.Committed? {
      InsertFileOnly(db, up);
      VersionsApart(db, r.db, id, q);
    } else {
      Itself(db, q);
    }
  }

  lemma Itself(db: Db, q: Id)
    ensures Apart(db, db, q)
  {
  }

  lemma MoveApart(db: Db, v: Id, from: VersionState, to: VersionState, q: Id)
    requires Linked(db) && OfVersion(db, v) != Some(q)
    ensures Apart(db, MoveVersion(db, v, from, to).Else(db), q)
  {
    hide Apart;
    var r := MoveVersion(db, v, from, to);
    if r.Committed? {
      VersionsApart(db, r.db, v, q);
    } else {
      Itself(db, q);
    }
  }

  lemma DecideApart(db: Db, v: Id, to: VersionState, id: Id, q: Id)
    requires Linked(db) && OfVersion(db, v) != Some(q) && id !in db.decisions
    ensures Apart(db, Decide(db, v, to, id).Else(db), q)
  {
    hide Apart;
    var r := Decide(db, v, to, id);
    if r.Committed? {
      VersionsApart(db, r.db, v, q);
    } else {
      Itself(db, q);
    }
  }

  lemma DeleteDraftApart(db: Db, v: Id, file: Option<Id>, now: Moment, q: Id)
    requires OfVersion(db, v) != Some(q)
    ensures Apart(db, DeleteDraft(db, v, file, now).Else(db), q)
  {
    hide HasDecision;
  }

  lemma DeleteDeliverableApart(db: Db, d: Id, now: Moment, q: Id)
    requires Linked(db) && OfDeliverable(db, d) != Some(q)
    ensures Apart(db, DeleteDeliverable(db, d, now).Else(db), q)
  {
    hide Apart, DeleteDeliverable;
    var db' := DeleteDeliverable(db, d, now).Else(db);
    DeleteDeliverableRows(db, d, now);
    DropApart(db, db', q, (v: Id) => !Belongs(db, v, d), (x: Id) => x != d);
  }

  lemma DeleteDeliverableVersions(db: Db, d: Id, now: Moment)
    ensures
      var r := DeleteDeliverable(db, d, now);
      r.Committed? ==> KeptVersions(db, r.db, (v: Id) => !Belongs(db, v, d))
  {
    hide HasDecision, FilesOf;
  }

  lemma DeleteDeliverableRows(db: Db, d: Id, now: Moment)
    ensures
      var r := DeleteDeliverable(db, d, now);
      r.Committed? ==>
        && Kept(db, r.db, (v: Id) => !Belongs(db, v, d), (x: Id) => x != d)
        && r.db.projects == db.projects && r.db.signoffs == db.signoffs && r.db.invoices == db.invoices && r.db.decisions == db.decisions
  {
    hide HasDecision, FilesOf, KeptVersions;
    DeleteDeliverableVersions(db, d, now);
  }

  /** Exactly the versions and deliverables that pass stay, and the waivers of those deliverables. */
  ghost predicate Kept(db: Db, db': Db, version: Id -> bool, deliverable: Id -> bool) {
    KeptVersions(db, db', version) && KeptDeliverables(db, db', deliverable)
  }

  ghost predicate KeptVersions(db: Db, db': Db, version: Id -> bool) {
    && (forall v :: v in db'.versions <==> v in db.versions && version(v))
    && (forall v | v in db'.versions && v in db.versions :: db'.versions[v] == db.versions[v])
  }

  ghost predicate KeptDeliverables(db: Db, db': Db, deliverable: Id -> bool) {
    && (forall d :: d in db'.deliverables <==> d in db.deliverables && deliverable(d))
    && (forall d | d in db'.deliverables && d in db.deliverables :: db'.deliverables[d] == db.deliverables[d])
    && (forall w :: w in db'.waivers <==> w in db.waivers && deliverable(db.waivers[w].deliverable))
    && (forall w | w in db'.waivers && w in db.waivers :: db'.waivers[w] == db.waivers[w])
  }

  lemma DropApart(db: Db, db': Db, q: Id, version: Id -> bool, deliverable: Id -> bool)
    requires db' == db || Kept(db, db', version, deliverable)
    requires db' == db || (SameProject(db, db', q) && SameSignoffs(db, db', q) && SameInvoices(db, db', q))
    requires forall c | c in db.decisions && InProject(db, db.decisions[c].version, q) :: c in db'.decisions
    requires forall c | c in db'.decisions :: c in db.decisions && db'.decisions[c] == db.decisions[c]
    requires forall v | InProject(db, v, q) :: version(v)
    requires forall d | DeliverableIn(db, d, q) :: deliverable(d)
    ensures Apart(db, db', q)
  {
    if db' == db {
      Itself(db, q);
    } else {
      hide SameProject, SameSignoffs, SameInvoices, Kept, SameDeliverables, SameVersions, SameDecisions, SameWaivers;
      DropApartDeliverables(db, db', q, version, deliverable);
      DropApartVersions(db, db', q, version, deliverable);
    }
  }

  lemma DropApartDeliverables(db: Db, db': Db, q: Id, version: Id -> bool, deliverable: Id -> bool)
    requires Kept(db, db', version, deliverable)
    requires forall d | DeliverableIn(db, d, q) :: deliverable(d)
    ensures SameDeliverables(db, db', q) && SameWaivers(db, db', q)
  {
  }

  lemma DropApartVersions(db: Db, db': Db, q: Id, version: Id -> bool, deliverable: Id -> bool)
    requires Kept(db, db', version, deliverable)
    requires forall c | c in db.decisions && InProject(db, db.decisions[c].version, q) :: c in db'.decisions
    requires forall c | c in db'.decisions :: c in db.decisions && db'.decisions[c] == db.decisions[c]
    requires forall v | InProject(db, v, q) :: version(v)
    requires forall d | DeliverableIn(db, d, q) :: deliverable(d)
    ensures SameVersions(db, db', q) && SameDecisions(db, db', q)
  {
  }

  lemma DeleteProjectApart(db: Db, p: Id, now: Moment, q: Id)
    requires p != q
    ensures Apart(db, DeleteProject(db, p, now).Else(db), q)
  {
    hide Apart, DeleteProject;
    DeleteProjectRows(db, p, now);
    DeleteProjectOutline(db, p, now, q);
    DeleteProjectDecisions(db, p, now);
    DropApart(db, DeleteProject(db, p, now).Else(db), q, (v: Id) => !InProject(db, v, p), (d: Id) => !DeliverableIn(db, d, p));
  }

  lemma DeleteProjectVersions(db: Db, p: Id, now: Moment)
    ensures
      var r := DeleteProject(db, p, now);
      r.Committed? ==> KeptVersions(db, r.db, (v: Id) => !InProject(db, v, p))
  {
    hide HasDecision, FilesOf, InProject;
  }

  lemma DeleteProjectDeliverables(db: Db, p: Id, now: Moment)
    ensures
      var r := DeleteProject(db, p, now);
      r.Committed? ==> KeptDeliverables(db, r.db, (d: Id) => !DeliverableIn(db, d, p))
  {
    hide HasDecision, FilesOf, InProject;
  }

  lemma DeleteProjectRows(db: Db, p: Id, now: Moment)
    ensures
      var r := DeleteProject(db, p, now);
      r.Committed? ==> Kept(db, r.db, (v: Id) => !InProject(db, v, p), (d: Id) => !DeliverableIn(db, d, p))
  {
    hide DeleteProject, KeptVersions, KeptDeliverables, InProject, DeliverableIn;
    DeleteProjectVersions(db, p, now);
    DeleteProjectDeliverables(db, p, now);
  }

  lemma DeleteProjectProject(db: Db, p: Id, now: Moment, q: Id)
    requires p != q
    ensures
      var r := DeleteProject(db, p, now);
      r.Committed? ==> SameProject(db, r.db, q)
  {
    hide HasDecision, FilesOf, InProject;
  }

  lemma DeleteProjectSignoffs(db: Db, p: Id, now: Moment, q: Id)
    requires p != q
    ensures
      var r := DeleteProject(db, p, now);
      r.Committed? ==> SameSignoffs(db, r.db, q)
  {
    hide HasDecision, FilesOf, InProject;
  }

  lemma DeleteProjectInvoices(db: Db, p: Id, now: Moment, q: Id)
    requires p != q
    ensures
      var r := DeleteProject(db, p, now);
      r.Committed? ==> SameInvoices(db, r.db, q)
  {
    hide HasDecision, FilesOf, InProject;
  }

  lemma DeleteProjectOutline(db: Db, p: Id, now: Moment, q: Id)
    requires p != q
    ensures
      var r := DeleteProject(db, p, now);
      r.Committed? ==> SameProject(db, r.db, q) && SameSignoffs(db, r.db, q) && SameInvoices(db, r.db, q)
  {
    hide DeleteProject, SameProject, SameSignoffs, SameInvoices;
    DeleteProjectProject(db, p, now, q);
    DeleteProjectSignoffs(db, p, now, q);
    DeleteProjectInvoices(db, p, now, q);
  }

  lemma DeleteProjectDecisions(db: Db, p: Id, now: Moment)
    ensures
      var r := DeleteProject(db, p, now);
      r.Committed? ==>
        && (forall c :: c in r.db.decisions <==> c in db.decisions && !InProject(db, db.decisions[c].version, p))
        && (forall c | c in r.db.decisions && c in db.decisions :: r.db.decisions[c] == db.decisions[c])
  {
    hide HasDecision, FilesOf;
  }

  /** A request changes the folder of no project but its own. */
  lemma TransactApart(w: World, t: nat, q: Id)
    requires Reachable(w) && t in w.pending && w.pending[t].Request? && Target(w.db, w.pending[t].intent) != Some(q)
    ensures FolderOf(Transact(w.db, w.pending[t], w.clock).Else(w.db), q) == FolderOf(w.db, q)
  {
    hide Numbered, Decided, Linked, Apart, FolderOf, CreateVersion, DeleteProject, DeleteDeliverable, DeleteDraft, CreateInvoice, EditInvoice,
         SaveLogo, MoveVersion, Decide, Waive, SignOff, CreateProject, CreateDeliverable, SetClosed, EditDeliverable, SetInvoiceStatus;
    var db, r, now := w.db, w.pending[t], w.clock;
    assert Fresh(w, t);
    Itself(db, q);
    match r.intent {
      case AddProject(org, id) => CreateProjectApart(db, id, org, q);
      case CloseProject(p) => SetClosedApart(db, p, true, q);
      case ReopenProject(p) => SetClosedApart(db, p, false, q);
      case DropProject(p, _) => DeleteProjectApart(db, p, now, q);
      case AddDeliverable(p, required, id) => CreateDeliverableApart(db, p, id, required, q);
      case ChangeDeliverable(d, required) => EditDeliverableApart(db, d, required, q);
      case DropDeliverable(d) => DeleteDeliverableApart(db, d, now, q);
      case AddWaiver(d, reason, id) => WaiveApart(db, d, id, reason, now, q);
      case AddVersion(d, reasonOk, id, file) => CreateVersionApart(db, d, id, UploadOf(file, r.upload), reasonOk, q);
      case Share(v) => if r.seen.SeenVersion? { MoveApart(db, v, r.seen.state, Shared, q); }
      case Withdraw(v) => if r.seen.SeenVersion? { MoveApart(db, v, r.seen.state, Withdrawn, q); }
      case DropVersion(v) => if r.seen.SeenVersion? { DeleteDraftApart(db, v, r.seen.file, now, q); }
      case Answer(v, to, id) => DecideApart(db, v, to, id, q);
      case Sign(p, _, id) => if r.seen.SeenRows? { SignOffApart(db, p, id, r.seen.rows, q); }
      case AddInvoice(p, id, file) => CreateInvoiceApart(db, p, id, UploadOf(file, r.upload), q);
      case ChangeInvoice(i, file) => EditInvoiceApart(db, i, UploadOf(file, r.upload), now, q);
      case MoveInvoice(i, to) => SetInvoiceStatusApart(db, i, to, q);
      case SaveSettings(file) => if r.seen.SeenLogo? { SaveLogoApart(db, UploadOf(file, r.upload), r.seen.logo, now, q); }
    }
    ApartMeans(db, Transact(db, r, now).Else(db), q);
  }
}
