/**
 * When a project stops being ready for sign-off (internal/web/portal.go, internal/web/deliverables.go), and
 * so when a recorded sign-off is of a ready project: the checklist is read before the transaction and not
 * again in it, so a commit in between may undo it. The commits that do are listed here, exactly.
 */
module Readiness {
  import opened Basics
  import opened Timestamps
  import opened JobTable
  import opened Domain
  import opened Schema
  import opened Requests
  import opened Identity
  import opened Approval
  import opened Folders
  import opened Guards
  import opened Closing
  import Handoff
  import Signoffs

  predicate WaivedIn(ws: map<Id, Waiver>, d: Id) { exists w :: w in ws && ws[w].deliverable == d }

  predicate ApprovedLast(vs: Versions, d: Id) { exists v :: v in vs && NewestIn(vs, v, d) && vs[v].state.Approved? }

  predicate Good(vs: Versions, ws: map<Id, Waiver>, d: Id) { WaivedIn(ws, d) || ApprovedLast(vs, d) }

  /** Something is required, and everything required is waived or has an approved newest version. */
  ghost predicate ProjectReady(db: Db, p: Id) {
    (exists d :: Required(db, d, p)) && forall d | Required(db, d, p) :: Good(db.versions, db.waivers, d)
  }

  // ---- it is the condition of the overview and of the sign-off guard ----

  lemma GoodIs(db: Db, d: Id)
    requires Unique(db.versions)
    ensures Good(db.versions, db.waivers, d) <==> Handoff.Waived(db, d) || Handoff.LatestApproved(db, d)
  {
    hide NewestOf, Unique;
    NewestExists(db, d);
    forall v | v in db.versions
      ensures NewestIn(db.versions, v, d) <==> NewestOf(db, d) == Some(v)
    {
      Handoff.JoinFindsNewest(db, v, d);
      assert Newest(db, v, d) <==> NewestIn(db.versions, v, d);
    }
  }

  lemma ReadyIs(db: Db, p: Id)
    requires Sound(db)
    ensures ProjectReady(db, p) && Writable(db, p) <==> Handoff.OnOverview(db, p)
    ensures forall order | Lists(db, order, p) :: AllSatisfied(RowsOf(db, order)) <==> ProjectReady(db, p)
  {
    hide Linked, GapFree, Unique, OpenLast, Decided, Good, Handoff.Waived, Handoff.LatestApproved, RowsOf, AllSatisfied, Required, Lists;
    forall d
      ensures Good(db.versions, db.waivers, d) <==> Handoff.Waived(db, d) || Handoff.LatestApproved(db, d)
    {
      GoodIs(db, d);
    }
    forall order | Lists(db, order, p)
      ensures AllSatisfied(RowsOf(db, order)) <==> ProjectReady(db, p)
    {
      Handoff.RowsMean(db, order, p);
    }
  }

  // ---- it can be read off the project's folder ----

  ghost predicate ReadyFolder(f: Folder) {
    && (exists d :: d in f.deliverables && f.deliverables[d].required)
    && forall d | d in f.deliverables && f.deliverables[d].required :: Good(f.versions, f.waivers, d)
  }

  lemma GoodInFolder(db: Db, d: Id, p: Id)
    requires OfDeliverable(db, d) == Some(p)
    ensures Good(FolderOf(db, p).versions, FolderOf(db, p).waivers, d) <==> Good(db.versions, db.waivers, d)
  {
    hide FolderOf;
    RowsOfFolder(db, p);
    WaiversOfFolder(db, p);
    var f := FolderOf(db, p);
    forall v
      ensures NewestIn(f.versions, v, d) <==> NewestIn(db.versions, v, d)
    {
    }
    forall w | w in db.waivers && db.waivers[w].deliverable == d
      ensures w in f.waivers
    {
    }
  }

  lemma WaiversOfFolder(db: Db, p: Id)
    ensures forall w :: w in FolderOf(db, p).waivers <==> w in db.waivers && OfDeliverable(db, db.waivers[w].deliverable) == Some(p)
    ensures forall w | w in FolderOf(db, p).waivers :: FolderOf(db, p).waivers[w] == db.waivers[w]
  {
  }

  lemma ReadyByFolder(db: Db, p: Id)
    ensures ProjectReady(db, p) <==> ReadyFolder(FolderOf(db, p))
  {
    hide FolderOf, Good;
    RowsOfFolder(db, p);
    var f := FolderOf(db, p);
    forall d
      ensures Required(db, d, p) <==> d in f.deliverables && f.deliverables[d].required
      ensures Required(db, d, p) ==> (Good(f.versions, f.waivers, d) <==> Good(db.versions, db.waivers, d))
    {
      if Required(db, d, p) {
        GoodInFolder(db, d, p);
      }
    }
  }

  // ---- what undoes it ----

  /** d is the one required deliverable of p. */
  ghost predicate OnlyRequired(db: Db, d: Id, p: Id) { Required(db, d, p) && forall e | Required(db, e, p) :: e == d }

  /** A required deliverable comes or nothing required is left, or an approval is reopened that no waiver covers. */
  ghost predicate Spoils(db: Db, intent: Intent, p: Id) {
    match intent
    case AddDeliverable(_, required, _) => required
    case ChangeDeliverable(d, required) =>
      if required then !Required(db, d, p) && !Good(db.versions, db.waivers, d) else OnlyRequired(db, d, p)
    case DropDeliverable(d) =>
      OnlyRequired(db, d, p) && forall v | v in db.versions && db.versions[v].deliverable == d :: db.versions[v].state.Draft?
    case AddVersion(d, reasonOk, _, _) => Required(db, d, p) && !WaivedIn(db.waivers, d) && reasonOk
    case DropProject(_, _) => true
    case _ => false
  }

  /** The same deliverables, and none of them worse off. */
  lemma StillReady(db: Db, db': Db, p: Id)
    requires ProjectReady(db, p) && db'.deliverables == db.deliverables
    requires forall d | Good(db.versions, db.waivers, d) :: Good(db'.versions, db'.waivers, d)
    ensures ProjectReady(db', p)
  {
    hide Good;
    var d :| Required(db, d, p);
    assert Required(db', d, p);
  }

  /** An approved newest version is left alone by changes to other versions, and stays newest when one goes. */
  lemma StillGood(vs: Versions, vs': Versions, ws: map<Id, Waiver>, ws': map<Id, Waiver>, d: Id)
    requires Good(vs, ws, d)
    requires forall w | w in ws :: w in ws' && ws'[w] == ws[w]
    requires ApprovalsStay(vs, vs')
    ensures Good(vs', ws', d)
  {
    if WaivedIn(ws, d) {
      var w :| w in ws && ws[w].deliverable == d;
      assert ws'[w].deliverable == d;
    } else {
      var v :| v in vs && NewestIn(vs, v, d) && vs[v].state.Approved?;
      assert NewestIn(vs', v, d);
    }
  }

  /** The same deliverables, all the waivers and all the approved versions, and no version that was not there. */
  ghost predicate Retained(db: Db, db': Db) {
    && db'.deliverables == db.deliverables
    && (forall w | w in db.waivers :: w in db'.waivers && db'.waivers[w] == db.waivers[w])
    && ApprovalsStay(db.versions, db'.versions)
  }

  ghost predicate ApprovalsStay(vs: Versions, vs': Versions) {
    && (forall v | v in vs' :: v in vs && vs'[v].deliverable == vs[v].deliverable && vs'[v].number == vs[v].number)
    && (forall v | v in vs && vs[v].state.Approved? :: v in vs' && vs'[v] == vs[v])
  }

  lemma RetainedReady(db: Db, db': Db, p: Id)
    requires ProjectReady(db, p) && Retained(db, db')
    ensures ProjectReady(db', p)
  {
    hide ProjectReady, Good;
    forall d | Good(db.versions, db.waivers, d)
      ensures Good(db'.versions, db'.waivers, d)
    {
      StillGood(db.versions, db'.versions, db.waivers, db'.waivers, d);
    }
    StillReady(db, db', p);
  }

  /** A version that is still open can move without touching an approval. */
  lemma OpenMoves(vs: Versions, v: Id, to: VersionState)
    requires v in vs && !vs[v].state.Approved?
    ensures ApprovalsStay(vs, vs[v := vs[v].(state := to)])
  {
  }

  lemma VersionsItself(vs: Versions)
    ensures ApprovalsStay(vs, vs)
  {
  }

  lemma MoveRetains(db: Db, v: Id, from: VersionState, to: VersionState)
    requires !from.Final()
    ensures Retained(db, MoveVersion(db, v, from, to).Else(db))
  {
    hide ApprovalsStay;
    VersionsItself(db.versions);
    if MoveVersion(db, v, from, to).Committed? {
      OpenMoves(db.versions, v, to);
    }
  }

  lemma DecideRetains(db: Db, v: Id, to: VersionState, id: Id)
    ensures Retained(db, Decide(db, v, to, id).Else(db))
  {
    hide ApprovalsStay;
    VersionsItself(db.versions);
    if Decide(db, v, to, id).Committed? {
      OpenMoves(db.versions, v, to);
    }
  }

  lemma DeleteDraftRetains(db: Db, v: Id, file: Option<Id>, now: Moment)
    ensures Retained(db, DeleteDraft(db, v, file, now).Else(db))
  {
    hide HasDecision, MarkDeleted;
    if file.Some? {
      MarkDeletedOnly(DropVersions(db, {v}), {file.value}, now);
    }
  }

  lemma WaiveRetains(db: Db, d: Id, id: Id, reason: string, now: Moment)
    requires id !in db.waivers
    ensures Retained(db, Waive(db, d, id, reason, now).Else(db))
  {
    hide ApprovalsStay;
    VersionsItself(db.versions);
  }

  lemma SignRetains(db: Db, q: Id, id: Id, rows: seq<Row>, closed: bool)
    ensures Retained(db, SignOff(db, q, id, rows).Else(db)) && Retained(db, SetClosed(db, q, closed).Else(db))
  {
    hide ApprovalsStay;
    VersionsItself(db.versions);
  }

  lemma FilesRetain(db: Db, db': Db)
    requires FilesOnly(db, db')
    ensures Retained(db, db')
  {
    hide ApprovalsStay;
    VersionsItself(db.versions);
    FilesOnlyMeans(db, db');
  }

  lemma AddDeliverableSpoils(db: Db, p: Id, d: Id, required: bool)
    requires ProjectReady(db, p) && Linked(db) && p in db.projects && d !in db.deliverables
    ensures ProjectReady(CreateDeliverable(db, p, d, required).Else(db), p) <==> !required
  {
    hide Linked;
    var db' := CreateDeliverable(db, p, d, required).db;
    NothingNames(db, d);
    var e :| Required(db, e, p);
    assert Required(db', e, p);
    if required {
      assert Required(db', d, p);
    } else {
      forall x | Required(db', x, p)
        ensures Good(db'.versions, db'.waivers, x)
      {
        assert Required(db, x, p);
      }
    }
  }

  lemma NothingNames(db: Db, d: Id)
    requires Linked(db) && d !in db.deliverables
    ensures !Good(db.versions, db.waivers, d)
  {
  }

  lemma EditSpoils(db: Db, d: Id, required: bool, p: Id)
    requires ProjectReady(db, p) && OfDeliverable(db, d) == Some(p)
    ensures ProjectReady(EditDeliverable(db, d, required).Else(db), p) <==> !Spoils(db, ChangeDeliverable(d, required), p)
  {
    hide Good;
    var db' := EditDeliverable(db, d, required).db;
    forall e | e != d
      ensures Required(db', e, p) <==> Required(db, e, p)
    {
    }
    assert Required(db', d, p) <==> required;
    if required {
    } else if OnlyRequired(db, d, p) {
    } else {
      var x: Id :| Required(db, x, p) && x != d;
      assert Required(db', x, p);
    }
  }

  lemma DropDeliverableSpoils(db: Db, d: Id, now: Moment, p: Id)
    requires Sound(db) && ProjectReady(db, p) && OfDeliverable(db, d) == Some(p)
    ensures ProjectReady(DeleteDeliverable(db, d, now).Else(db), p) <==> !Spoils(db, DropDeliverable(d), p)
  {
    hide Sound, DeleteDeliverable, Good;
    DropDeliverableCommits(db, d, now);
    var r := DeleteDeliverable(db, d, now);
    if r.Committed? {
      DeleteDeliverableRows(db, d, now);
      forall e
        ensures Required(r.db, e, p) <==> Required(db, e, p) && e != d
      {
      }
      forall e | Required(r.db, e, p)
        ensures Good(r.db.versions, r.db.waivers, e)
      {
        GoodElsewhere(db, r.db, d, e);
      }
      if !OnlyRequired(db, d, p) {
        var x: Id :| Required(db, x, p) && x != d;
        assert Required(r.db, x, p);
      }
    }
  }

  /** Taking away what names d leaves the versions and waivers of every other deliverable. */
  lemma GoodElsewhere(db: Db, db': Db, d: Id, e: Id)
    requires Kept(db, db', (v: Id) => !Belongs(db, v, d), (x: Id) => x != d)
    requires e != d && Good(db.versions, db.waivers, e)
    ensures Good(db'.versions, db'.waivers, e)
  {
    if WaivedIn(db.waivers, e) {
      var w :| w in db.waivers && db.waivers[w].deliverable == e;
      assert w in db'.waivers;
    } else {
      var v :| v in db.versions && NewestIn(db.versions, v, e) && db.versions[v].state.Approved?;
      assert NewestIn(db'.versions, v, e);
    }
  }

  lemma AddVersionSpoils(db: Db, d: Id, id: Id, up: Option<Upload>, reasonOk: bool, file: Id, p: Id)
    requires Sound(db) && ProjectReady(db, p) && OfDeliverable(db, d) == Some(p) && id !in db.versions
    ensures ProjectReady(CreateVersion(db, d, id, up, reasonOk).Else(db), p) <==> !Spoils(db, AddVersion(d, reasonOk, id, file), p)
  {
    hide CreateVersion, Sound, MayFollow, Good;
    FollowsExactly(db, d, id, up, reasonOk);
    var r := CreateVersion(db, d, id, up, reasonOk);
    if Required(db, d, p) && !WaivedIn(db.waivers, d) {
      ReopensExactly(db, d, reasonOk);
    }
    if r.Committed? {
      NextVersion(db, d, id, up, reasonOk);
      forall e | Required(db, e, p)
        ensures Required(r.db, e, p)
        ensures Good(r.db.versions, r.db.waivers, e) <==> e != d || WaivedIn(db.waivers, d)
      {
        GoodAfterAdd(db, r.db, id, d, e);
      }
      var e :| Required(db, e, p);
    }
  }

  /** What follows an approved version needs a reason, and nothing else. */
  lemma ReopensExactly(db: Db, d: Id, reasonOk: bool)
    requires Sound(db) && Good(db.versions, db.waivers, d) && !WaivedIn(db.waivers, d)
    ensures MayFollow(db.versions, d, reasonOk) <==> reasonOk
  {
    hide Linked, GapFree, OpenLast, Decided;
    var v :| v in db.versions && NewestIn(db.versions, v, d) && db.versions[v].state.Approved?;
    forall u | u in db.versions && NewestIn(db.versions, u, d)
      ensures u == v
    {
      assert db.versions[u].number == db.versions[v].number;
    }
  }

  /** The new version is a draft under a number above all others of its deliverable. */
  lemma NextVersion(db: Db, d: Id, id: Id, up: Option<Upload>, reasonOk: bool)
    requires Sound(db) && CreateVersion(db, d, id, up, reasonOk).Committed? && id !in db.versions
    ensures
      var db' := CreateVersion(db, d, id, up, reasonOk).db;
      && db'.deliverables == db.deliverables && db'.waivers == db.waivers
      && id in db'.versions && db'.versions == db.versions[id := db'.versions[id]]
      && db'.versions[id].deliverable == d && db'.versions[id].state.Draft?
      && forall u | u in db.versions && db.versions[u].deliverable == d :: db.versions[u].number < db'.versions[id].number
  {
    hide NewestOf, Linked, Decided, Numbered;
    NewestExists(db, d);
    NextNumber(db, d);
  }

  lemma GoodAfterAdd(db: Db, db': Db, id: Id, d: Id, e: Id)
    requires db'.waivers == db.waivers && id !in db.versions && id in db'.versions && db'.versions == db.versions[id := db'.versions[id]]
    requires db'.versions[id].deliverable == d && db'.versions[id].state.Draft?
    requires forall u | u in db.versions && db.versions[u].deliverable == d :: db.versions[u].number < db'.versions[id].number
    requires Good(db.versions, db.waivers, e)
    ensures Good(db'.versions, db'.waivers, e) <==> e != d || WaivedIn(db.waivers, d)
  {
    if e != d && !WaivedIn(db.waivers, e) {
      var v :| v in db.versions && NewestIn(db.versions, v, e) && db.versions[v].state.Approved?;
      assert NewestIn(db'.versions, v, e);
    }
  }

  lemma DropProjectSpoils(db: Db, p: Id, now: Moment)
    ensures !ProjectReady(DeleteProject(db, p, now).Else(db), p)
  {
    hide DeleteProject, FolderOf;
    DropLeavesNothing(db, p, now);
    ReadyByFolder(DeleteProject(db, p, now).Else(db), p);
  }

  // ---- the exact condition ----

  lemma CommitSpoils(w: World, t: nat, p: Id)
    requires Reachable(w) && t in w.pending && w.pending[t].Request? && Target(w.db, w.pending[t].intent) == Some(p) && ProjectReady(w.db, p)
    ensures ProjectReady(Transact(w.db, w.pending[t], w.clock).Else(w.db), p) <==> !Spoils(w.db, w.pending[t].intent, p)
  {
    hide ProjectReady, Sound, OfDeliverable, OfVersion, OfInvoice, CreateVersion, DeleteProject, DeleteDeliverable, DeleteDraft, FilesOnly,
         CreateInvoice, EditInvoice, SaveLogo, MoveVersion, Decide, Waive, SignOff, CreateProject, CreateDeliverable, SetClosed,
         EditDeliverable, SetInvoiceStatus, Required, Good, WaivedIn, OnlyRequired;
    var db, r, now := w.db, w.pending[t], w.clock;
    assert Checked(r) && Fresh(w, t);
    ReadyExists(db, p);
    match r.intent
    case DropProject(q, _) => DropProjectSpoils(db, q, now);
    case AddDeliverable(q, required, id) => AddDeliverableSpoils(db, q, id, required);
    case ChangeDeliverable(d, required) => EditSpoils(db, d, required, p);
    case DropDeliverable(d) => DropDeliverableSpoils(db, d, now, p);
    case AddVersion(d, reasonOk, id, file) => AddVersionSpoils(db, d, id, UploadOf(file, r.upload), reasonOk, file, p);
    case AddProject(_, _) =>
    case SaveSettings(_) =>
    case _ =>
      OthersRetain(w, t);
      RetainedReady(db, Transact(db, r, now).Else(db), p);
  }

  /** Every other request leaves the deliverables alone and no approval worse off. */
  lemma OthersRetain(w: World, t: nat)
    requires Reachable(w) && t in w.pending && w.pending[t].Request?
    requires
      var i := w.pending[t].intent;
      !(i.DropProject? || i.AddDeliverable? || i.ChangeDeliverable? || i.DropDeliverable? || i.AddVersion?)
    ensures Retained(w.db, Transact(w.db, w.pending[t], w.clock).Else(w.db))
  {
    hide Sound, DeleteDraft, FilesOnly, CreateInvoice, EditInvoice, SaveLogo, MoveVersion, Decide, Waive, SignOff, SetClosed,
         SetInvoiceStatus, Retained;
    var db, r, now := w.db, w.pending[t], w.clock;
    assert Checked(r) && Fresh(w, t);
    ItselfRetained(db);
    match r.intent
    case AddProject(org, id) => ProjectRetains(db, id, org);
    case CloseProject(q) => SignRetains(db, q, 0, [], true);
    case ReopenProject(q) => SignRetains(db, q, 0, [], false);
    case AddWaiver(d, reason, id) => WaiveRetains(db, d, id, reason, now);
    case Share(v) => MoveRetains(db, v, r.seen.state, Shared);
    case Withdraw(v) => MoveRetains(db, v, r.seen.state, Withdrawn);
    case DropVersion(v) => DeleteDraftRetains(db, v, r.seen.file, now);
    case Answer(v, to, id) => DecideRetains(db, v, to, id);
    case Sign(q, _, id) => SignRetains(db, q, id, r.seen.rows, true);
    case AddInvoice(q, id, file) => AddInvoiceOnly(db, q, id, UploadOf(file, r.upload)); FilesRetain(db, Transact(db, r, now).Else(db));
    case ChangeInvoice(i, file) => EditInvoiceOnly(db, i, UploadOf(file, r.upload), now); FilesRetain(db, Transact(db, r, now).Else(db));
    case MoveInvoice(i, to) => StatusOnly(db, i, to); FilesRetain(db, Transact(db, r, now).Else(db));
    case SaveSettings(file) =>
      if r.seen.SeenLogo? {
        SaveLogoOnly(db, UploadOf(file, r.upload), r.seen.logo, now);
        FilesRetain(db, Transact(db, r, now).Else(db));
      }
  }

  lemma ItselfRetained(db: Db)
    ensures Retained(db, db)
  {
  }

  lemma ProjectRetains(db: Db, p: Id, org: Id)
    ensures Retained(db, CreateProject(db, p, org).Else(db))
  {
  }

  lemma StatusOnly(db: Db, i: Id, to: InvoiceStatus)
    ensures FilesOnly(db, SetInvoiceStatus(db, i, to).Else(db))
  {
  }

  lemma ReadyExists(db: Db, p: Id)
    requires Sound(db) && ProjectReady(db, p)
    ensures p in db.projects && Linked(db)
  {
    hide Numbered, Decided, Good;
    var d :| Required(db, d, p);
  }

  /** The step commits a request about p that undoes its readiness. */
  ghost predicate SpoiledBy(w: World, s: Step, p: Id) {
    && s.Commit? && s.ticket in w.pending && w.pending[s.ticket].Request?
    && Target(w.db, w.pending[s.ticket].intent) == Some(p) && Spoils(w.db, w.pending[s.ticket].intent, p)
  }

  /**
   * In every reachable state a ready project stops being ready by a step exactly when the step commits a
   * request about it that adds a required deliverable, makes one required that is neither waived nor
   * approved, un-requires or deletes the last required one, or adds a version after an approval that no
   * waiver covers; or deletes the project.
   */
  lemma UnreadyExactly(w: World, s: Step, p: Id)
    requires Reachable(w) && ProjectReady(w.db, p)
    ensures !ProjectReady(Do(w, s).db, p) <==> SpoiledBy(w, s, p)
  {
    hide Reachable, ProjectReady, Do, FolderOf, Transact, Target, Spoils;
    if s.Commit? && s.ticket in w.pending && w.pending[s.ticket].Request? {
      CommitDb(w, s.ticket);
      if Target(w.db, w.pending[s.ticket].intent) == Some(p) {
        CommitSpoils(w, s.ticket, p);
      } else {
        TransactApart(w, s.ticket, p);
      }
    } else if s.Commit? {
      NoCommit(w, s.ticket);
    } else {
      OtherKeepsFolder(w, s, p);
    }
    ReadyByFolder(w.db, p);
    ReadyByFolder(Do(w, s).db, p);
  }

  ghost predicate AlwaysReady(w: World, steps: seq<Step>, p: Id)
    decreases |steps|
  {
    ProjectReady(w.db, p) && (steps == [] || AlwaysReady(Do(w, steps[0]), steps[1..], p))
  }

  ghost predicate NeverSpoiled(w: World, steps: seq<Step>, p: Id)
    decreases |steps|
  {
    steps == [] || (!SpoiledBy(w, steps[0], p) && NeverSpoiled(Do(w, steps[0]), steps[1..], p))
  }

  /** Over any steps a ready project stays ready throughout exactly when none of them is such a commit. */
  lemma {:induction false} ReadyThroughoutExactly(w: World, steps: seq<Step>, p: Id)
    requires Reachable(w) && ProjectReady(w.db, p)
    ensures AlwaysReady(w, steps, p) <==> NeverSpoiled(w, steps, p)
    ensures NeverSpoiled(w, steps, p) ==> ProjectReady(Run(w, steps).db, p)
    decreases |steps|
  {
    hide Reachable, ProjectReady, Do, SpoiledBy;
    if steps != [] {
      UnreadyExactly(w, steps[0], p);
      if !SpoiledBy(w, steps[0], p) {
        ReachableDo(w, steps[0]);
        ReadyThroughoutExactly(Do(w, steps[0]), steps[1..], p);
      } else {
        UnreadyNow(Do(w, steps[0]), steps[1..], p);
      }
    }
  }

  lemma UnreadyNow(w: World, steps: seq<Step>, p: Id)
    requires !ProjectReady(w.db, p)
    ensures !AlwaysReady(w, steps, p)
  {
  }

  // ---- sign-offs of ready projects ----

  /** A sign-off is let through exactly when its project is open and ready. */
  lemma SignNeedsReady(w: World, p: Id, order: seq<Id>, id: Id)
    requires Reachable(w) && Lists(w.db, order, p)
    ensures See(w, Sign(p, order, id)).Some? <==> Writable(w.db, p) && ProjectReady(w.db, p)
  {
    hide Sound, Distinct, Lists, RowsOf, AllSatisfied, ProjectReady;
    ReadyIs(w.db, p);
  }

  lemma SignedSawReady(w: World, p: Id, order: seq<Id>, id: Id)
    requires Reachable(w) && See(w, Sign(p, order, id)).Some?
    ensures ProjectReady(w.db, p) && Writable(w.db, p)
  {
    hide Sound, Distinct, Lists, RowsOf, AllSatisfied, ProjectReady;
    ReadyIs(w.db, p);
  }

  /**
   * From the read that let a sign-off through, its project is ready at every moment up to its commit exactly
   * when none of the steps in between is such a commit; and then the project it records is ready, before and
   * after.
   */
  lemma SignedWhenReady(w: World, t: nat, p: Id, order: seq<Id>, id: Id, steps: seq<Step>)
    requires Reachable(w) && CanSign(w, p, order, id) && t !in w.pending
    ensures
      var v := Do(w, Read(t, Sign(p, order, id)));
      var u := Run(v, steps);
      && (AlwaysReady(v, steps, p) <==> NeverSpoiled(v, steps, p))
      && (NeverSpoiled(v, steps, p) && t in u.pending && u.pending[t].Request? && u.pending[t].intent == Sign(p, order, id) ==>
            ProjectReady(u.db, p) && ProjectReady(Do(u, Commit(t)).db, p) && SignoffIn(Do(u, Commit(t)).db, id, p))
  {
    hide Reachable, ProjectReady, Do, Run, AlwaysReady, NeverSpoiled, RowsOf, Transact, Target;
    var intent := Sign(p, order, id);
    var v := Do(w, Read(t, intent));
    SignedSawReady(w, p, order, id);
    ReadSign(w, t, p, order, id);
    ReachableDo(w, Read(t, intent));
    ReadyThroughoutExactly(v, steps, p);
    var u := Run(v, steps);
    ReachableRun(v, steps);
    if NeverSpoiled(v, steps, p) && t in u.pending && u.pending[t].Request? && u.pending[t].intent == intent {
      UnreadyExactly(u, Commit(t), p);
      ReadyInProjects(u, p);
      SignAdds(u, t, p);
      CommitDb(u, t);
    }
  }

  lemma ReadyInProjects(w: World, p: Id)
    requires Reachable(w) && ProjectReady(w.db, p)
    ensures p in w.db.projects
  {
    hide Sound, ProjectReady;
    ReadyExists(w.db, p);
  }

  /**
   * One request at a time, every sign-off that is recorded is of a project that was open and ready then, and
   * that is ready still.
   */
  lemma SerialSignoffReady(w: World, x: Turn, p: Id, id: Id)
    requires Reachable(w)
    ensures !SignoffIn(w.db, id, p) && SignoffIn(TakeTurn(w, x).db, id, p) ==>
      Writable(w.db, p) && ProjectReady(w.db, p) && ProjectReady(TakeTurn(w, x).db, p)
  {
    hide Reachable, ProjectReady, Do, See, Transact, Target, Spoils;
    if Allowed(w, x) {
      match x
      case Other(s) => OtherSignoffs(w, s);
      case Serve(t, intent) =>
        var v := Do(w, Read(t, intent));
        ReadLets(w, t, intent);
        ReachableDo(w, Read(t, intent));
        if t in v.pending && v.pending[t].Request? {
          CommitDb(v, t);
          Signoffs.RecordsAfter(v.db, v.pending[t], v.clock);
          if intent.Sign? && intent.project == p {
            SignedSawReady(w, p, intent.order, intent.id);
            UnreadyExactly(v, Commit(t), p);
            SignSpoilsNothing(v.db, intent, p);
          }
        } else {
          NoCommit(v, t);
        }
    }
  }

  lemma SignSpoilsNothing(db: Db, intent: Intent, p: Id)
    requires intent.Sign?
    ensures !Spoils(db, intent, p)
  {
  }

  lemma {:induction false} SerialReachable(w: World, turns: seq<Turn>)
    requires Reachable(w)
    ensures Reachable(Serial(w, turns))
    decreases |turns|
  {
    hide Reachable, TakeTurn;
    if turns != [] {
      TurnReachable(w, turns[0]);
      SerialReachable(TakeTurn(w, turns[0]), turns[1..]);
    }
  }

  /** So over any serial run from the start. */
  lemma SerialSignoffsReady(clock: Moment, turns: seq<Turn>, x: Turn, p: Id, id: Id)
    ensures
      var w := Serial(Start(clock), turns);
      !SignoffIn(w.db, id, p) && SignoffIn(TakeTurn(w, x).db, id, p) ==>
        Writable(w.db, p) && ProjectReady(w.db, p) && ProjectReady(TakeTurn(w, x).db, p)
  {
    hide Reachable, Serial, TakeTurn, ProjectReady;
    StartReachable(clock);
    SerialReachable(Start(clock), turns);
    SerialSignoffReady(Serial(Start(clock), turns), x, p, id);
  }
}
