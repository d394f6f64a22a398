/**
 * The approval record in every reachable state: gap-free version numbers, at most one version of a
 * deliverable still open, and decisions that match the states they decided, under any interleaving
 * of the requests of Requests.dfy.
 */
module Approval {
  import opened Basics
  import opened Timestamps
  import opened JobTable
  import opened Domain
  import opened Schema
  import opened Requests
  import opened Identity

  type Versions = map<Id, Version>
  type Decisions = map<Id, Decision>

  // ---- numbers ----

  ghost predicate HasNumber(vs: Versions, d: Id, k: nat) {
    exists v :: v in vs && vs[v].deliverable == d && vs[v].number == k
  }

  /** Numbers start at 1 and every number above 1 has the one before it. */
  ghost predicate GapFree(vs: Versions) {
    forall v | v in vs :: vs[v].number >= 1 && (vs[v].number > 1 ==> HasNumber(vs, vs[v].deliverable, vs[v].number - 1))
  }

  /** UNIQUE (deliverable_id, number). */
  ghost predicate Unique(vs: Versions) {
    forall v, u | v in vs && u in vs && vs[v].deliverable == vs[u].deliverable && vs[v].number == vs[u].number :: v == u
  }

  /** A version with a newer one after it is final. */
  ghost predicate OpenLast(vs: Versions) {
    forall v, u | v in vs && u in vs && vs[v].deliverable == vs[u].deliverable && vs[v].number < vs[u].number :: vs[v].state.Final()
  }

  ghost predicate Numbered(vs: Versions) { GapFree(vs) && Unique(vs) && OpenLast(vs) }

  lemma HasNumberKept(vs: Versions, vs': Versions, d: Id, k: nat)
    requires HasNumber(vs, d, k)
    requires forall v | v in vs && vs[v].deliverable == d && vs[v].number == k ::
      v in vs' && vs'[v].deliverable == d && vs'[v].number == k
    ensures HasNumber(vs', d, k)
  {
    var v :| v in vs && vs[v].deliverable == d && vs[v].number == k;
    assert v in vs';
  }

  lemma AddUnique(vs: Versions, id: Id, x: Version)
    requires Unique(vs) && OpenLast(vs) && id !in vs
    requires forall u | u in vs && vs[u].deliverable == x.deliverable :: vs[u].number < x.number && vs[u].state.Final()
    ensures Unique(vs[id := x]) && OpenLast(vs[id := x])
  {
  }

  /** A new version under the next number, when all earlier ones are final. */
  lemma AddNumbered(vs: Versions, id: Id, x: Version)
    requires Numbered(vs) && id !in vs && x.number >= 1
    requires forall u | u in vs && vs[u].deliverable == x.deliverable :: vs[u].number < x.number && vs[u].state.Final()
    requires x.number > 1 ==> HasNumber(vs, x.deliverable, x.number - 1)
    ensures Numbered(vs[id := x])
  {
    hide Unique, OpenLast;
    var vs' := vs[id := x];
    AddUnique(vs, id, x);
    forall v | v in vs'
      ensures vs'[v].number >= 1 && (vs'[v].number > 1 ==> HasNumber(vs', vs'[v].deliverable, vs'[v].number - 1))
    {
      if vs'[v].number > 1 {
        HasNumberKept(vs, vs', vs'[v].deliverable, vs'[v].number - 1);
      }
    }
  }

  lemma MoveUnique(vs: Versions, v: Id, to: VersionState)
    requires Unique(vs) && OpenLast(vs) && v in vs && !vs[v].state.Final()
    ensures Unique(vs[v := vs[v].(state := to)]) && OpenLast(vs[v := vs[v].(state := to)])
  {
  }

  /** Moving an open version leaves all numbers alone. */
  lemma MoveNumbered(vs: Versions, v: Id, to: VersionState)
    requires Numbered(vs) && v in vs && !vs[v].state.Final()
    ensures Numbered(vs[v := vs[v].(state := to)])
  {
    hide Unique, OpenLast;
    var vs' := vs[v := vs[v].(state := to)];
    MoveUnique(vs, v, to);
    forall u | u in vs'
      ensures vs'[u].number >= 1 && (vs'[u].number > 1 ==> HasNumber(vs', vs'[u].deliverable, vs'[u].number - 1))
    {
      if vs'[u].number > 1 {
        HasNumberKept(vs, vs', vs'[u].deliverable, vs'[u].number - 1);
      }
    }
  }

  /** Deleting versions leaves no gap when each goes together with everything newer than it. */
  lemma DropNumbered(vs: Versions, vs': Versions)
    requires Numbered(vs)
    requires forall v | v in vs' :: v in vs && vs'[v] == vs[v]
    requires forall v, u | v in vs && u in vs' && vs[v].deliverable == vs[u].deliverable && vs[v].number < vs[u].number :: v in vs'
    ensures Numbered(vs')
  {
    assert Unique(vs') && OpenLast(vs');
    forall v | v in vs'
      ensures vs'[v].number >= 1 && (vs'[v].number > 1 ==> HasNumber(vs', vs'[v].deliverable, vs'[v].number - 1))
    {
      if vs'[v].number > 1 {
        HasNumberKept(vs, vs', vs'[v].deliverable, vs'[v].number - 1);
      }
    }
  }

  // ---- decisions ----

  predicate Answered(s: VersionState) { s.Approved? || s.RevisionRequested? }

  ghost predicate DecisionFor(cs: Decisions, v: Id) { exists c :: c in cs && cs[c].version == v }

  /** Exactly one decision of the matching type for an answered version, none for any other. */
  ghost predicate Decided(vs: Versions, cs: Decisions) {
    && (forall c | c in cs :: cs[c].version in vs && vs[cs[c].version].state == cs[c].verdict && Answered(cs[c].verdict))
    && (forall c, e | c in cs && e in cs && cs[c].version == cs[e].version :: c == e)
    && (forall v | v in vs && Answered(vs[v].state) :: DecisionFor(cs, v))
  }

  lemma OpenHasNoDecision(vs: Versions, cs: Decisions, v: Id)
    requires Decided(vs, cs) && v in vs && !Answered(vs[v].state)
    ensures !DecisionFor(cs, v)
  {
  }

  lemma AddDecided(vs: Versions, cs: Decisions, id: Id, x: Version)
    requires Decided(vs, cs) && id !in vs && !Answered(x.state)
    ensures Decided(vs[id := x], cs)
  {
  }

  /** Withdrawing or sharing an open version. */
  lemma MoveDecided(vs: Versions, cs: Decisions, v: Id, to: VersionState)
    requires Decided(vs, cs) && v in vs && !vs[v].state.Final() && !Answered(to)
    ensures Decided(vs[v := vs[v].(state := to)], cs)
  {
  }

  /** Answering an open version and recording the decision with it. */
  lemma AnswerDecided(vs: Versions, cs: Decisions, v: Id, to: VersionState, id: Id)
    requires Decided(vs, cs) && v in vs && !vs[v].state.Final() && Answered(to) && id !in cs
    ensures Decided(vs[v := vs[v].(state := to)], cs[id := Decision(v, to)])
  {
    var vs', cs' := vs[v := vs[v].(state := to)], cs[id := Decision(v, to)];
    forall u | u in vs' && Answered(vs'[u].state)
      ensures DecisionFor(cs', u)
    {
      if u == v {
        assert cs'[id].version == v;
      } else {
        var c :| c in cs && cs[c].version == u;
        assert cs'[c].version == u;
      }
    }
  }

  /** Versions go together with their decisions. */
  lemma DropDecided(vs: Versions, cs: Decisions, vs': Versions, cs': Decisions)
    requires Decided(vs, cs)
    requires forall v | v in vs' :: v in vs && vs'[v] == vs[v]
    requires forall c | c in cs' :: c in cs && cs'[c] == cs[c]
    requires forall c | c in cs :: c in cs' <==> cs[c].version in vs'
    ensures Decided(vs', cs')
  {
    forall v | v in vs' && Answered(vs'[v].state)
      ensures DecisionFor(cs', v)
    {
      assert DecisionFor(cs, v);
      var c :| c in cs && cs[c].version == v;
      assert cs'[c].version == v;
    }
  }

  // ---- the invariant on the database ----

  /** The foreign keys of the approval tables, and waivers with a reason. */
  ghost predicate Linked(db: Db) {
    && (forall d | d in db.deliverables :: db.deliverables[d].project in db.projects)
    && (forall v | v in db.versions :: db.versions[v].deliverable in db.deliverables)
    && (forall w | w in db.waivers :: db.waivers[w].deliverable in db.deliverables && db.waivers[w].reason != "")
    && (forall s | s in db.signoffs :: db.signoffs[s].project in db.projects)
  }

  ghost predicate Sound(db: Db) {
    Linked(db) && Numbered(db.versions) && Decided(db.versions, db.decisions)
  }

  // ---- each transaction keeps it ----

  lemma {:induction false} TopOf(vs: Versions, ids: set<Id>) returns (v: Id)
    requires ids != {} && ids <= vs.Keys
    ensures v in ids && forall u | u in ids :: vs[u].number <= vs[v].number
    decreases |ids|
  {
    var u :| u in ids;
    if ids == {u} {
      v := u;
    } else {
      var rest := TopOf(vs, ids - {u});
      v := if vs[u].number > vs[rest].number then u else rest;
    }
  }

  /** A deliverable has a newest version exactly when it has any version. */
  lemma NewestExists(db: Db, d: Id)
    ensures NewestOf(db, d).Some? ==> Newest(db, NewestOf(db, d).value, d)
    ensures NewestOf(db, d).Some? <==> exists u :: Belongs(db, u, d)
  {
    if u :| Belongs(db, u, d) {
      var ids := set v | v in db.versions && Belongs(db, v, d);
      assert u in ids;
      var v := TopOf(db.versions, ids);
      forall x | x in db.versions && Belongs(db, x, d)
        ensures db.versions[x].number <= db.versions[v].number
      {
        assert x in ids;
      }
      assert Newest(db, v, d);
    }
  }

  lemma CreateVersionSound(db: Db, d: Id, id: Id, up: Option<Upload>, reasonOk: bool)
    requires Sound(db) && id !in db.versions
    ensures Sound(CreateVersion(db, d, id, up, reasonOk).Else(db))
  {
    hide Numbered, Decided;
    var r := CreateVersion(db, d, id, up, reasonOk);
    if r.Committed? {
      NewestExists(db, d);
      NextNumber(db, d);
      var x := r.db.versions[id];
      assert r.db.versions == db.versions[id := x];
      AddNumbered(db.versions, id, x);
      AddDecided(db.versions, db.decisions, id, x);
    }
  }

  /** When a new version is allowed, the next number is one above versions that are all final. */
  lemma NextNumber(db: Db, d: Id)
    requires Numbered(db.versions)
    requires NewestOf(db, d).Some? ==> db.versions.Keys >= {NewestOf(db, d).value} && Newest(db, NewestOf(db, d).value, d)
    requires NewestOf(db, d).Some? <==> exists u :: Belongs(db, u, d)
    requires NewestOf(db, d).Some? ==> db.versions[NewestOf(db, d).value].state.Final()
    ensures forall u | u in db.versions && db.versions[u].deliverable == d ::
      && NewestOf(db, d).Some?
      && db.versions[u].number <= db.versions[NewestOf(db, d).value].number && db.versions[u].state.Final()
    ensures NewestOf(db, d).Some? ==>
      && db.versions[NewestOf(db, d).value].number >= 1
      && HasNumber(db.versions, d, db.versions[NewestOf(db, d).value].number)
  {
    hide NewestOf;
    forall u | u in db.versions && db.versions[u].deliverable == d
      ensures NewestOf(db, d).Some? && db.versions[u].number <= db.versions[NewestOf(db, d).value].number && db.versions[u].state.Final()
    {
      assert Belongs(db, u, d);
    }
  }

  lemma MoveSound(db: Db, v: Id, from: VersionState, to: VersionState)
    requires Sound(db) && !from.Final() && !Answered(to)
    ensures Sound(MoveVersion(db, v, from, to).Else(db))
  {
    hide Numbered, Decided;
    if MoveVersion(db, v, from, to).Committed? {
      MoveNumbered(db.versions, v, to);
      MoveDecided(db.versions, db.decisions, v, to);
    }
  }

  lemma DecideSound(db: Db, v: Id, to: VersionState, id: Id)
    requires Sound(db) && Answered(to) && id !in db.decisions
    ensures Sound(Decide(db, v, to, id).Else(db))
  {
    hide Numbered, Decided;
    if Decide(db, v, to, id).Committed? {
      MoveNumbered(db.versions, v, to);
      AnswerDecided(db.versions, db.decisions, v, to, id);
    }
  }

  lemma DecisionIs(db: Db, v: Id)
    ensures HasDecision(db, v) <==> DecisionFor(db.decisions, v)
  {
  }

  /** Dropping drafts, which are newest, leaves no gap. */
  lemma DropDraftsNumbered(vs: Versions, vs': Versions)
    requires Numbered(vs)
    requires forall v | v in vs' :: v in vs && vs'[v] == vs[v]
    requires forall v | v in vs && v !in vs' :: vs[v].state.Draft?
    ensures Numbered(vs')
  {
    hide GapFree, Unique;
    DropNumbered(vs, vs');
  }

  /** And no decision names them. */
  lemma DropDraftsDecided(vs: Versions, vs': Versions, cs: Decisions)
    requires Decided(vs, cs)
    requires forall v | v in vs' :: v in vs && vs'[v] == vs[v]
    requires forall v | v in vs && v !in vs' :: vs[v].state.Draft?
    ensures Decided(vs', cs)
    ensures forall v | v in vs && v !in vs' :: !DecisionFor(cs, v)
  {
    forall v | v in vs && v !in vs'
      ensures !DecisionFor(cs, v)
    {
      OpenHasNoDecision(vs, cs, v);
    }
    forall c | c in cs
      ensures cs[c].version in vs'
    {
      assert DecisionFor(cs, cs[c].version);
    }
    DropDecided(vs, cs, vs', cs);
  }

  lemma DropDrafts(vs: Versions, vs': Versions, cs: Decisions)
    requires Numbered(vs) && Decided(vs, cs)
    requires forall v | v in vs' :: v in vs && vs'[v] == vs[v]
    requires forall v | v in vs && v !in vs' :: vs[v].state.Draft?
    ensures Numbered(vs') && Decided(vs', cs)
    ensures forall v | v in vs && v !in vs' :: !DecisionFor(cs, v)
  {
    hide Numbered, Decided;
    DropDraftsNumbered(vs, vs');
    DropDraftsDecided(vs, vs', cs);
  }

  /** A draft delete keeps the record sound and never trips over the foreign key of decisions. */
  lemma DeleteDraftSound(db: Db, v: Id, file: Option<Id>, now: Instant)
    requires Sound(db)
    ensures Sound(DeleteDraft(db, v, file, now).Else(db))
    ensures DeleteDraft(db, v, file, now) != RolledBack(ForeignKey)
  {
    hide Numbered, Decided;
    if v in db.versions && db.versions[v].state.Draft? {
      DropDrafts(db.versions, DropVersions(db, {v}).versions, db.decisions);
      DecisionIs(db, v);
    }
  }

  /** Neither does deleting a deliverable whose versions are all drafts. */
  lemma DeleteDeliverableSound(db: Db, d: Id, now: Instant)
    requires Sound(db)
    ensures Sound(DeleteDeliverable(db, d, now).Else(db))
    ensures DeleteDeliverable(db, d, now) != RolledBack(ForeignKey)
  {
    hide Numbered, Decided, HasDecision, FilesOf, Linked, MarkDeleted;
    var vs := set v | v in db.versions && Belongs(db, v, d);
    if forall v | v in vs :: db.versions[v].state.Draft? {
      DropDrafts(db.versions, DropVersions(db, vs).versions, db.decisions);
      forall v | v in vs
        ensures !HasDecision(db, v)
      {
        DecisionIs(db, v);
      }
      DeleteDeliverableLinked(db, d, now);
    }
  }

  lemma DeleteDeliverableLinked(db: Db, d: Id, now: Instant)
    requires Linked(db)
    ensures Linked(DeleteDeliverable(db, d, now).Else(db))
    ensures
      var r := DeleteDeliverable(db, d, now);
      r.Committed? ==>
        && r.db.versions == DropVersions(db, set v | v in db.versions && Belongs(db, v, d)).versions
        && r.db.decisions == db.decisions
  {
    hide HasDecision, FilesOf;
  }

  /** Deleting a project takes its decisions first, so its versions can go. */
  lemma DeleteProjectSound(db: Db, p: Id, now: Instant)
    requires Sound(db)
    ensures DeleteProject(db, p, now).Committed?
    ensures Sound(DeleteProject(db, p, now).db)
  {
    hide Numbered, Decided, FilesOf;
    var vs := set v | v in db.versions && InProject(db, v, p);
    var vs' := DropVersions(db, vs).versions;
    var cs' := map c | c in db.decisions && db.decisions[c].version !in vs :: db.decisions[c];
    DropProjectVersions(db, p, vs', cs');
    DeleteProjectCommits(db, p, now);
    DeleteProjectLinked(db, p, now);
    DeleteProjectRest(db, p, now);
  }

  lemma DropProjectVersions(db: Db, p: Id, vs': Versions, cs': Decisions)
    requires Sound(db)
    requires vs' == DropVersions(db, set v | v in db.versions && InProject(db, v, p)).versions
    requires cs' == map c | c in db.decisions && !InProject(db, db.decisions[c].version, p) :: db.decisions[c]
    ensures Numbered(vs') && Decided(vs', cs')
  {
    hide Numbered;
    DropNumbered(db.versions, vs');
    DropDecided(db.versions, db.decisions, vs', cs');
  }

  lemma DeleteProjectCommits(db: Db, p: Id, now: Instant)
    ensures DeleteProject(db, p, now).Committed?
  {
    hide FilesOf;
  }

  lemma DeleteProjectLinked(db: Db, p: Id, now: Instant)
    requires Linked(db) && DeleteProject(db, p, now).Committed?
    ensures Linked(DeleteProject(db, p, now).db)
  {
    hide FilesOf, HasDecision;
  }

  lemma DeleteProjectRest(db: Db, p: Id, now: Instant)
    requires DeleteProject(db, p, now).Committed?
    ensures
      var db' := DeleteProject(db, p, now).db;
      && db'.versions == DropVersions(db, set v | v in db.versions && InProject(db, v, p)).versions
      && db'.decisions == map c | c in db.decisions && !InProject(db, db.decisions[c].version, p) :: db.decisions[c]
  {
    hide FilesOf, HasDecision;
  }

  lemma WaiveSound(db: Db, d: Id, id: Id, reason: string, now: Moment)
    requires Sound(db) && reason != ""
    ensures Sound(Waive(db, d, id, reason, now).Else(db))
  {
    hide Numbered, Decided;
  }

  lemma SignOffSound(db: Db, p: Id, id: Id, rows: seq<Row>)
    requires Sound(db)
    ensures Sound(SignOff(db, p, id, rows).Else(db))
  {
    hide Numbered, Decided;
  }

  lemma CreateProjectSound(db: Db, org: Id, id: Id)
    requires Sound(db)
    ensures Sound(CreateProject(db, id, org).Else(db))
  {
    hide Numbered, Decided;
  }

  lemma CreateDeliverableSound(db: Db, p: Id, id: Id, required: bool)
    requires Sound(db)
    ensures Sound(CreateDeliverable(db, p, id, required).Else(db))
  {
    hide Numbered, Decided;
  }

  lemma SetClosedSound(db: Db, p: Id, closed: bool)
    requires Sound(db)
    ensures Sound(SetClosed(db, p, closed).Else(db))
  {
    hide Numbered, Decided;
  }

  lemma EditDeliverableSound(db: Db, d: Id, required: bool)
    requires Sound(db)
    ensures Sound(EditDeliverable(db, d, required).Else(db))
  {
    hide Numbered, Decided;
  }

  /** Invoices, files and the logo are no part of the approval record. */
  lemma OtherTablesSound(db: Db, db': Db)
    requires Sound(db)
    requires db' == db.(invoices := db'.invoices, files := db'.files, logo := db'.logo)
    ensures Sound(db')
  {
    hide Numbered, Decided;
  }

  // ---- every reachable state ----

  /** What the read step established about a request and no later step can change. */
  ghost predicate Checked(r: Pending)
    requires r.Request?
  {
    match r.intent
    case Share(v) => r.seen.SeenVersion? && Transition(r.seen.state, Shared, Staff)
    case Withdraw(v) => r.seen.SeenVersion? && Transition(r.seen.state, Withdrawn, Staff)
    case DropVersion(v) => r.seen.SeenVersion?
    case Answer(v, to, id) => Answered(to)
    case Sign(p, order, id) => r.seen.SeenRows?
    case AddWaiver(d, reason, id) => reason != ""
    case _ => true
  }

  ghost predicate Reachable(w: World) {
    && Sound(w.db) && Distinct(w)
    && forall t | t in w.pending && w.pending[t].Request? :: Checked(w.pending[t])
  }

  lemma TransactSound(w: World, t: nat)
    requires Reachable(w) && t in w.pending && w.pending[t].Request?
    ensures Sound(Transact(w.db, w.pending[t], w.clock).Else(w.db))
    ensures Deletes(w.pending[t].intent) ==> Transact(w.db, w.pending[t], w.clock) != RolledBack(ForeignKey)
  {
    hide Sound, CreateVersion, DeleteProject, DeleteDeliverable, DeleteDraft, CreateInvoice, EditInvoice, SaveLogo,
         MoveVersion, Decide, Waive, SignOff, CreateProject, CreateDeliverable, SetClosed, EditDeliverable;
    var db, r, now := w.db, w.pending[t], w.clock;
    assert Checked(r) && Fresh(w, t);
    match r.intent
    case AddProject(org, id) => CreateProjectSound(db, org, id);
    case CloseProject(p) => SetClosedSound(db, p, true);
    case ReopenProject(p) => SetClosedSound(db, p, false);
    case DropProject(p, _) => DeleteProjectSound(db, p, now);
    case AddDeliverable(p, required, id) => CreateDeliverableSound(db, p, id, required);
    case ChangeDeliverable(d, required) => EditDeliverableSound(db, d, required);
    case DropDeliverable(d) => DeleteDeliverableSound(db, d, now);
    case AddWaiver(d, reason, id) => WaiveSound(db, d, id, reason, now);
    case AddVersion(d, reasonOk, id, file) => CreateVersionSound(db, d, id, UploadOf(file, r.upload), reasonOk);
    case Share(v) => if r.seen.SeenVersion? { MoveSound(db, v, r.seen.state, Shared); }
    case Withdraw(v) => if r.seen.SeenVersion? { MoveSound(db, v, r.seen.state, Withdrawn); }
    case DropVersion(v) => if r.seen.SeenVersion? { DeleteDraftSound(db, v, r.seen.file, now); }
    case Answer(v, to, id) => DecideSound(db, v, to, id);
    case Sign(p, _, id) => if r.seen.SeenRows? { SignOffSound(db, p, id, r.seen.rows); }
    case AddInvoice(p, id, file) => AddInvoiceOnly(db, p, id, UploadOf(file, r.upload)); OtherTablesSound(db, Transact(db, r, now).Else(db));
    case ChangeInvoice(i, file) => EditInvoiceOnly(db, i, UploadOf(file, r.upload), now); OtherTablesSound(db, Transact(db, r, now).Else(db));
    case MoveInvoice(i, to) => OtherTablesSound(db, SetInvoiceStatus(db, i, to).Else(db));
    case SaveSettings(file) => if r.seen.SeenLogo? { SaveLogoOnly(db, UploadOf(file, r.upload), r.seen.logo, now); OtherTablesSound(db, Transact(db, r, now).Else(db)); }
  }

  ghost predicate FilesOnly(db: Db, db': Db) {
    db' == db.(invoices := db'.invoices, files := db'.files, logo := db'.logo)
  }

  lemma FilesOnlyMeans(db: Db, db': Db)
    requires FilesOnly(db, db')
    ensures db'.projects == db.projects && db'.deliverables == db.deliverables && db'.versions == db.versions
    ensures db'.decisions == db.decisions && db'.waivers == db.waivers && db'.signoffs == db.signoffs
  {
  }

  lemma AddInvoiceOnly(db: Db, p: Id, id: Id, up: Option<Upload>)
    ensures FilesOnly(db, CreateInvoice(db, p, id, up).Else(db))
  {
  }

  lemma EditInvoiceOnly(db: Db, i: Id, up: Option<Upload>, now: Instant)
    ensures FilesOnly(db, EditInvoice(db, i, up, now).Else(db))
  {
  }

  lemma SaveLogoOnly(db: Db, up: Option<Upload>, was: Option<Id>, now: Instant)
    ensures FilesOnly(db, SaveLogo(db, up, was, now).Else(db))
  {
  }

  lemma ReachableDo(w: World, s: Step)
    requires Reachable(w)
    ensures Reachable(Do(w, s))
  {
    hide Sound, Distinct, Transact, Due, NoticeOf, Held;
    DistinctDo(w, s);
    match s
    case Commit(t) =>
      if t in w.pending && w.pending[t].Request? {
        TransactSound(w, t);
      }
    case Read(t, intent) => CheckedRead(w, t, intent);
    case PurgeRow(t) =>
      if Do(w, s).db != w.db {
        OtherTablesSound(w.db, Do(w, s).db);
      }
    case _ =>
  }

  lemma CheckedRead(w: World, t: nat, intent: Intent)
    requires Reachable(w)
    ensures Do(w, Read(t, intent)).db == w.db
    ensures
      var v := Do(w, Read(t, intent));
      forall u | u in v.pending && v.pending[u].Request? :: Checked(v.pending[u])
  {
    hide Sound, Distinct, NewIds, Lists, RowsOf, AllSatisfied;
  }

  lemma {:induction false} ReachableRun(w: World, steps: seq<Step>)
    requires Reachable(w)
    ensures Reachable(Run(w, steps))
    decreases |steps|
  {
    if steps != [] {
      ReachableDo(w, steps[0]);
      ReachableRun(Do(w, steps[0]), steps[1..]);
    }
  }

  lemma StartReachable(clock: Moment)
    ensures Reachable(Start(clock))
  {
  }

  // ---- the promises ----

  /** Every number up to that of some version is taken. */
  lemma {:induction false} NumbersBelow(vs: Versions, v: Id, k: nat)
    requires GapFree(vs) && v in vs && 1 <= k <= vs[v].number
    ensures HasNumber(vs, vs[v].deliverable, k)
    decreases vs[v].number
  {
    if k < vs[v].number {
      var u :| u in vs && vs[u].deliverable == vs[v].deliverable && vs[u].number == vs[v].number - 1;
      NumbersBelow(vs, u, k);
    }
  }

  /** The numbers of d are exactly 1..n. */
  ghost predicate CountUpTo(vs: Versions, d: Id, n: nat) {
    forall k: nat :: HasNumber(vs, d, k) <==> 1 <= k <= n
  }

  /** Of two versions of one deliverable at most one is open, and it is the newer one. */
  ghost predicate OneOpen(vs: Versions, d: Id) {
    forall v, u | v in vs && u in vs && vs[v].deliverable == d && vs[u].deliverable == d && v != u ::
      !vs[v].state.Final() ==> vs[u].state.Final() && vs[u].number < vs[v].number
  }

  lemma NumberedMeans(db: Db, d: Id)
    requires Numbered(db.versions)
    ensures exists n: nat :: CountUpTo(db.versions, d, n)
    ensures OneOpen(db.versions, d)
  {
    var n := Top(db, d);
    forall k: nat
      ensures HasNumber(db.versions, d, k) <==> 1 <= k <= n
    {
      NumberInRange(db, d, n, k);
    }
    assert CountUpTo(db.versions, d, n);
  }

  ghost function Top(db: Db, d: Id): nat {
    if NewestOf(db, d).None? then 0 else db.versions[NewestOf(db, d).value].number
  }

  /**
   * In every reachable state the version numbers of a deliverable are exactly 1..n, each used once,
   * and every version but the newest is revision_requested, approved or withdrawn; so at most one is
   * a draft or shared, although drafts are deleted and their numbers used again.
   */
  lemma VersionNumbers(clock: Moment, steps: seq<Step>, d: Id)
    ensures
      var vs := Run(Start(clock), steps).db.versions;
      (exists n: nat :: CountUpTo(vs, d, n)) && Unique(vs) && OneOpen(vs, d)
  {
    hide Run, Distinct, Checked;
    StartReachable(clock);
    ReachableRun(Start(clock), steps);
    var db := Run(Start(clock), steps).db;
    NumberedMeans(db, d);
    var n: nat :| CountUpTo(db.versions, d, n);
    assert CountUpTo(Run(Start(clock), steps).db.versions, d, n);
  }

  lemma NumberInRange(db: Db, d: Id, n: nat, k: nat)
    requires Numbered(db.versions)
    requires n == Top(db, d)
    ensures HasNumber(db.versions, d, k) <==> 1 <= k <= n
  {
    hide Unique, OpenLast;
    NewestExists(db, d);
    if HasNumber(db.versions, d, k) {
      var u :| u in db.versions && db.versions[u].deliverable == d && db.versions[u].number == k;
      assert Belongs(db, u, d);
    } else if 1 <= k <= n {
      NumbersBelow(db.versions, NewestOf(db, d).value, k);
    }
  }

  /**
   * In every reachable state an approved or revision-requested version has exactly one decision, of
   * its own type, and any other version has none.
   */
  lemma DecisionsMatch(clock: Moment, steps: seq<Step>, v: Id)
    ensures
      var db := Run(Start(clock), steps).db;
      v in db.versions ==>
        && (Answered(db.versions[v].state) <==> HasDecision(db, v))
        && forall c, e | c in db.decisions && e in db.decisions && db.decisions[c].version == v == db.decisions[e].version ::
             c == e && db.decisions[c].verdict == db.versions[v].state
  {
    hide Run;
    StartReachable(clock);
    ReachableRun(Start(clock), steps);
    DecisionIs(Run(Start(clock), steps).db, v);
  }

  predicate Deletes(intent: Intent) { intent.DropVersion? || intent.DropDeliverable? || intent.DropProject? }

  /** So deleting drafts, draft-only deliverables or whole projects never breaks a foreign key. */
  lemma DeletesNeverBreakKeys(clock: Moment, steps: seq<Step>, t: nat)
    ensures
      var w := Run(Start(clock), steps);
      (t in w.pending && w.pending[t].Request? && Deletes(w.pending[t].intent)) ==>
        Transact(w.db, w.pending[t], w.clock) != RolledBack(ForeignKey)
  {
    hide Run, Transact, Sound, Distinct, Checked;
    StartReachable(clock);
    ReachableRun(Start(clock), steps);
    var w := Run(Start(clock), steps);
    if t in w.pending && w.pending[t].Request? {
      TransactSound(w, t);
    }
  }
}
