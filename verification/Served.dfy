/**
 * What each request does, from its form to its transaction (internal/web), when nothing comes between its
 * read and its commit: for whom it is let through, in literal states, and the tables and notices it leaves.
 * What may come between is the subject of Guards, Races, Closing and Readiness.
 */
module Served {
  import opened Basics
  import opened Timestamps
  import opened JobTable
  import opened Domain
  import opened Schema
  import opened Requests
  import opened Identity
  import opened Approval
  import Closing
  import Effects
  import Folders
  import Guards
  import Readiness

  // What is open, spelled out again rather than taken from the reads it is compared with.

  predicate Open(db: Db, p: Id) { p in db.projects && !db.projects[p].closed }
  predicate OpenDeliverable(db: Db, d: Id) { d in db.deliverables && Open(db, db.deliverables[d].project) }
  predicate OpenVersion(db: Db, v: Id) { v in db.versions && OpenDeliverable(db, db.versions[v].deliverable) }
  predicate OpenInvoice(db: Db, i: Id) { i in db.invoices && Open(db, db.invoices[i].project) }

  // ---- who is let through ----

  /** The read of a request, in any state of the server. */
  ghost predicate Admits(db: Db, intent: Intent) {
    match intent
    case AddProject(_, _) => true
    case CloseProject(p) => Open(db, p)
    case ReopenProject(p) => p in db.projects && !Open(db, p)
    case DropProject(p, withClient) => p in db.projects && (withClient || !Open(db, p))
    case AddDeliverable(p, _, _) => Open(db, p)
    case ChangeDeliverable(d, _) => OpenDeliverable(db, d)
    case DropDeliverable(d) => OpenDeliverable(db, d)
    case AddWaiver(d, reason, _) => OpenDeliverable(db, d) && 3 <= |reason| <= 1000
    case AddVersion(d, _, _, _) => OpenDeliverable(db, d)
    case Share(v) => OpenVersion(db, v) && db.versions[v].state.Draft?
    case Withdraw(v) => OpenVersion(db, v) && (db.versions[v].state.Draft? || db.versions[v].state.Shared?)
    case DropVersion(v) => OpenVersion(db, v)
    case Answer(v, verdict, _) =>
      OpenVersion(db, v) && db.versions[v].state.Shared? && (verdict.Approved? || verdict.RevisionRequested?)
    case Sign(p, order, _) => Open(db, p) && Lists(db, order, p) && AllSatisfied(RowsOf(db, order))
    case AddInvoice(p, _, _) => Open(db, p)
    case ChangeInvoice(i, _) => OpenInvoice(db, i)
    case MoveInvoice(i, _) => OpenInvoice(db, i)
    case SaveSettings(_) => true
  }

  /** Every request is let through exactly then, whatever the server is doing. */
  lemma LetThroughExactly(w: World, intent: Intent)
    ensures See(w, intent).Some? <==> Admits(w.db, intent)
  {
    hide Lists, AllSatisfied, RowsOf;
  }

  // ---- read and commit ----

  ghost function Serve(w: World, t: nat, intent: Intent): World { Do(Do(w, Read(t, intent)), Commit(t)) }

  /** Nothing else is under way under the ticket, but perhaps the upload that came with the form. */
  predicate Free(w: World, t: nat) { t !in w.pending }
  predicate WithUpload(w: World, t: nat) { t in w.pending && w.pending[t].Uploaded? }

  function UploadAt(w: World, t: nat): Option<Key> { if WithUpload(w, t) then Some(w.pending[t].key) else None }

  /** The row and the file id that an upload becomes. */
  function NewFiles(w: World, t: nat, file: Id): map<Id, File> {
    if WithUpload(w, t) then w.db.files[file := File(w.pending[t].key, None)] else w.db.files
  }

  function NewFileId(w: World, t: nat, file: Id): Option<Id> { if WithUpload(w, t) then Some(file) else None }

  ghost predicate Starts(w: World, t: nat, intent: Intent) {
    && (Free(w, t) || (WithUpload(w, t) && TakesUpload(intent)))
    && NewIds(intent) !! w.usedIds && ((intent.AddVersion? || intent.AddInvoice?) ==> intent.id != intent.file)
  }

  lemma ServedIs(w: World, t: nat, intent: Intent)
    requires Starts(w, t, intent)
    ensures See(w, intent).None? ==> Serve(w, t, intent) == w
    ensures See(w, intent).Some? ==>
      var x := Transact(w.db, Request(intent, UploadAt(w, t), See(w, intent).value), w.clock);
      && Serve(w, t, intent).db == x.Else(w.db)
      && Serve(w, t, intent).notices == w.notices + (if x.Committed? then NoticeOf(intent) else [])
      && Serve(w, t, intent).usedIds == w.usedIds + NewIds(intent)
      && Serve(w, t, intent).clock == w.clock
      && (x.Committed? && !intent.SaveSettings? ==> Serve(w, t, intent).pending == w.pending - {t})
    ensures Free(w, t) ==> w.pending - {t} == w.pending
  {
    hide See, Transact, NoticeOf, NewIds;
    if See(w, intent).Some? {
      ReadIs(w, t, intent);
      CommitIs(Do(w, Read(t, intent)), t);
      assert w.pending[t := Request(intent, UploadAt(w, t), See(w, intent).value)] - {t} == w.pending - {t};
    }
  }

  lemma ReadIs(w: World, t: nat, intent: Intent)
    requires Starts(w, t, intent) && See(w, intent).Some?
    ensures Do(w, Read(t, intent)) ==
      w.(pending := w.pending[t := Request(intent, UploadAt(w, t), See(w, intent).value)], usedIds := w.usedIds + NewIds(intent))
  {
    hide See, NewIds;
  }

  lemma CommitIs(w: World, t: nat)
    requires t in w.pending && w.pending[t].Request?
    ensures
      var r := w.pending[t];
      var x, v := Transact(w.db, r, w.clock), Do(w, Commit(t));
      && v.db == x.Else(w.db) && v.clock == w.clock && v.usedIds == w.usedIds
      && v.notices == w.notices + (if x.Committed? then NoticeOf(r.intent) else [])
      && (x.Committed? && !r.intent.SaveSettings? ==> v.pending == w.pending - {t})
  {
    hide Transact, NoticeOf;
  }

  // ---- projects ----

  lemma ProjectServed(w: World, t: nat, p: Id, org: Id)
    requires Free(w, t) && p !in w.usedIds
    ensures
      var v := Serve(w, t, AddProject(org, p));
      v.db == w.db.(projects := w.db.projects[p := Project(org, false)]) && v.notices == w.notices && v.pending == w.pending
  {
    hide Serve;
    ServedIs(w, t, AddProject(org, p));
  }

  lemma StatusServed(w: World, t: nat, p: Id)
    requires Free(w, t)
    ensures
      var v := Serve(w, t, CloseProject(p));
      v.db == (if Open(w.db, p) then w.db.(projects := w.db.projects[p := w.db.projects[p].(closed := true)]) else w.db) && v.notices == w.notices
    ensures
      var v := Serve(w, t, ReopenProject(p));
      v.notices == w.notices
      && v.db == if p in w.db.projects && !Open(w.db, p) then w.db.(projects := w.db.projects[p := w.db.projects[p].(closed := false)]) else w.db
  {
    hide Serve;
    ServedIs(w, t, CloseProject(p));
    ServedIs(w, t, ReopenProject(p));
  }

  /** Deleting a closed project, or any with its client, leaves nothing of it and everything of the others. */
  lemma DropServed(w: World, t: nat, p: Id, withClient: bool, q: Id)
    requires Reachable(w) && Free(w, t)
    ensures
      var v := Serve(w, t, DropProject(p, withClient));
      && v.notices == w.notices
      && (p in w.db.projects && (withClient || !Open(w.db, p)) ==> Folders.FolderOf(v.db, p) == Guards.NOTHING)
      && (!(p in w.db.projects && (withClient || !Open(w.db, p))) ==> v.db == w.db)
      && (q != p ==> Folders.FolderOf(v.db, q) == Folders.FolderOf(w.db, q))
  {
    hide Reachable, Serve, DeleteProject, Folders.FolderOf, Folders.Apart;
    ServedIs(w, t, DropProject(p, withClient));
    Guards.DropLeavesNothing(w.db, p, w.clock);
    if q != p {
      Folders.DeleteProjectApart(w.db, p, w.clock, q);
      Folders.Itself(w.db, q);
      Folders.ApartMeans(w.db, Serve(w, t, DropProject(p, withClient)).db, q);
    }
  }

  // ---- deliverables ----

  lemma DeliverableServed(w: World, t: nat, p: Id, d: Id, required: bool)
    requires Free(w, t)
    ensures
      var v := Serve(w, t, AddDeliverable(p, required, d));
      d !in w.usedIds ==>
        && v.db == (if Open(w.db, p) then w.db.(deliverables := w.db.deliverables[d := Deliverable(p, required)]) else w.db)
        && v.notices == w.notices && (Open(w.db, p) ==> v.pending == w.pending)
    ensures
      var v := Serve(w, t, ChangeDeliverable(d, required));
      v.notices == w.notices
      && v.db == if OpenDeliverable(w.db, d) then w.db.(deliverables := w.db.deliverables[d := w.db.deliverables[d].(required := required)]) else w.db
  {
    hide Serve;
    if d !in w.usedIds {
      ServedIs(w, t, AddDeliverable(p, required, d));
    }
    ServedIs(w, t, ChangeDeliverable(d, required));
  }

  lemma DropDeliverableServed(w: World, t: nat, d: Id)
    requires Reachable(w) && Free(w, t)
    ensures
      var v := Serve(w, t, DropDeliverable(d));
      var drafts := forall x | x in w.db.versions && w.db.versions[x].deliverable == d :: w.db.versions[x].state.Draft?;
      && v.notices == w.notices
      && if OpenDeliverable(w.db, d) && drafts then Effects.OnlyWithout(w.db, v.db, d) else v.db == w.db
  {
    hide Serve, Sound, DeleteDeliverable, Effects.OnlyWithout;
    ServedIs(w, t, DropDeliverable(d));
    Effects.DeliverableGoesExactly(w.db, d, w.clock);
  }

  lemma WaiverServed(w: World, t: nat, d: Id, reason: string, id: Id)
    requires Free(w, t) && id !in w.usedIds
    ensures
      var v := Serve(w, t, AddWaiver(d, reason, id));
      v.notices == w.notices
      && v.db == if OpenDeliverable(w.db, d) && 3 <= |reason| <= 1000 then w.db.(waivers := w.db.waivers[id := Waiver(d, reason, w.clock)]) else w.db
  {
    hide Serve;
    ServedIs(w, t, AddWaiver(d, reason, id));
  }

  // ---- versions ----

  /** The newest version of d has number n and state s; none is number 0. */
  ghost predicate Top(vs: Versions, d: Id, n: nat, s: Option<VersionState>) {
    || (n == 0 && s.None? && forall v | v in vs :: vs[v].deliverable != d)
    || exists v :: v in vs && vs[v].deliverable == d && vs[v].number == n && s == Some(vs[v].state)
         && forall u | u in vs && vs[u].deliverable == d :: vs[u].number <= n
  }

  lemma TopExists(db: Db, d: Id) returns (n: nat, s: Option<VersionState>)
    ensures Top(db.versions, d, n, s)
  {
    hide NewestOf;
    NewestExists(db, d);
    var v := NewestOf(db, d);
    assert forall u | u in db.versions :: Belongs(db, u, d) <==> db.versions[u].deliverable == d;
    n, s := if v.None? then 0 else db.versions[v.value].number, if v.None? then None else Some(db.versions[v.value].state);
    if v.Some? {
      assert Belongs(db, v.value, d);
    }
  }

  lemma TopIs(db: Db, d: Id, n: nat, s: Option<VersionState>)
    requires Unique(db.versions) && Top(db.versions, d, n, s)
    ensures
      var v := NewestOf(db, d);
      && (v.None? <==> s.None?) && (s.None? ==> n == 0)
      && (v.Some? ==> v.value in db.versions && db.versions[v.value].number == n && s == Some(db.versions[v.value].state))
  {
    hide NewestOf;
    NewestExists(db, d);
    assert forall u | u in db.versions :: Belongs(db, u, d) <==> db.versions[u].deliverable == d;
  }

  lemma CreatesExactly(db: Db, d: Id, id: Id, up: Option<Schema.Upload>, reasonOk: bool, n: nat, s: Option<VersionState>)
    requires Unique(db.versions) && Top(db.versions, d, n, s) && d in db.deliverables
    ensures
      var x := CreateVersion(db, d, id, up, reasonOk);
      var files := if up.None? then db.files else db.files[up.value.id := File(up.value.key, None)];
      if s in {None, Some(RevisionRequested), Some(Withdrawn)} || (s == Some(Approved) && reasonOk)
      then x == Committed(db.(versions := db.versions[id := Version(d, n + 1, Draft, FileId(up))], files := files)) else x.RolledBack?
  {
    hide NewestOf, Top, Unique;
    TopIs(db, d, n, s);
  }

  /**
   * A new version comes only into an open project, after nothing, a revision request or a withdrawal, or after
   * an approval with a reason: a draft under the next number, with the file that was uploaded.
   */
  lemma VersionServed(w: World, t: nat, d: Id, reasonOk: bool, id: Id, file: Id, n: nat, s: Option<VersionState>)
    requires Reachable(w) && Top(w.db.versions, d, n, s)
    requires (Free(w, t) || WithUpload(w, t)) && id !in w.usedIds && file !in w.usedIds && id != file
    ensures
      var v := Serve(w, t, AddVersion(d, reasonOk, id, file));
      var follows := OpenDeliverable(w.db, d) && (s in {None, Some(RevisionRequested), Some(Withdrawn)} || (s == Some(Approved) && reasonOk));
      && v.notices == w.notices
      && (follows ==> v.pending == w.pending - {t})
      && v.db == if follows
         then w.db.(versions := w.db.versions[id := Version(d, n + 1, Draft, NewFileId(w, t, file))], files := NewFiles(w, t, file)) else w.db
  {
    hide Serve, NewestOf, Top, Linked, GapFree, OpenLast, Decided, Distinct;
    ServedIs(w, t, AddVersion(d, reasonOk, id, file));
    if OpenDeliverable(w.db, d) {
      CreatesExactly(w.db, d, id, UploadOf(file, UploadAt(w, t)), reasonOk, n, s);
    }
  }

  /** Sharing: a draft of an open project, once, with its notice. */
  lemma ShareServed(w: World, t: nat, x: Id)
    requires Free(w, t)
    ensures
      var v := Serve(w, t, Share(x));
      if OpenVersion(w.db, x) && w.db.versions[x].state.Draft?
      then v.db == Moved(w.db, x, Shared) && v.notices == w.notices + [Notice("version.shared", x)] && v.pending == w.pending
      else v.db == w.db && v.notices == w.notices
  {
    hide Serve;
    ServedIs(w, t, Share(x));
  }

  function Moved(db: Db, v: Id, to: VersionState): Db
    requires v in db.versions
  {
    db.(versions := db.versions[v := db.versions[v].(state := to)])
  }

  lemma WithdrawServed(w: World, t: nat, x: Id)
    requires Free(w, t)
    ensures
      var v := Serve(w, t, Withdraw(x));
      if OpenVersion(w.db, x) && (w.db.versions[x].state.Draft? || w.db.versions[x].state.Shared?)
      then v.db == Moved(w.db, x, Withdrawn) && v.notices == w.notices + [Notice("version.withdrawn", x)] && v.pending == w.pending
      else v.db == w.db && v.notices == w.notices
  {
    hide Serve;
    ServedIs(w, t, Withdraw(x));
  }

  /** A client's answer to a shared version: its state, its decision and its notice. */
  lemma AnswerServed(w: World, t: nat, x: Id, verdict: VersionState, id: Id)
    requires Free(w, t) && id !in w.usedIds
    ensures
      var v := Serve(w, t, Answer(x, verdict, id));
      if OpenVersion(w.db, x) && w.db.versions[x].state.Shared? && (verdict.Approved? || verdict.RevisionRequested?)
      then && v.db == Moved(w.db, x, verdict).(decisions := w.db.decisions[id := Decision(x, verdict)])
           && v.notices == w.notices + [Notice("decision", id)] && v.pending == w.pending
      else v.db == w.db && v.notices == w.notices
  {
    hide Serve;
    ServedIs(w, t, Answer(x, verdict, id));
  }

  /** A draft goes with its file; any other version stays. */
  lemma DropVersionServed(w: World, t: nat, x: Id)
    requires Reachable(w) && Free(w, t)
    ensures
      var v := Serve(w, t, DropVersion(x));
      && v.notices == w.notices
      && if OpenVersion(w.db, x) && w.db.versions[x].state.Draft?
         then v.db == w.db.(versions := w.db.versions - {x}, files := DeletedNow(w.db.files, w.db.versions[x].file, w.clock)) else v.db == w.db
  {
    hide Serve, Sound, HasDecision, Distinct;
    ServedIs(w, t, DropVersion(x));
    DeleteDraftSound(w.db, x, if x in w.db.versions then w.db.versions[x].file else None, w.clock);
    if OpenVersion(w.db, x) && w.db.versions[x].state.Draft? {
      assert DropVersions(w.db, {x}).versions == w.db.versions - {x};
    }
  }

  /** A file that is no longer held is deleted as of now. */
  function DeletedNow(files: map<Id, File>, f: Option<Id>, now: Moment): map<Id, File> {
    map x | x in files :: if f == Some(x) then File(files[x].key, Some(now)) else files[x]
  }

  // ---- sign-off ----

  /** A sign-off is recorded of an open project that is ready, with a row for each required deliverable, and closes it. */
  lemma SignServed(w: World, t: nat, p: Id, order: seq<Id>, id: Id)
    requires Reachable(w) && Free(w, t) && id !in w.usedIds && Lists(w.db, order, p)
    ensures
      var v := Serve(w, t, Sign(p, order, id));
      if Open(w.db, p) && Readiness.ProjectReady(w.db, p)
      then && v.db == w.db.(signoffs := w.db.signoffs[id := Signoff(p, RowsOf(w.db, order))],
                            projects := w.db.projects[p := w.db.projects[p].(closed := true)])
           && v.notices == w.notices + [Notice("signoff", id)] && v.pending == w.pending
      else v.db == w.db && v.notices == w.notices
  {
    hide Reachable, Serve, Lists, AllSatisfied, RowsOf, Readiness.ProjectReady;
    ServedIs(w, t, Sign(p, order, id));
    Readiness.SignNeedsReady(w, p, order, id);
  }

  // ---- invoices ----

  lemma InvoiceServed(w: World, t: nat, p: Id, id: Id, file: Id)
    requires (Free(w, t) || WithUpload(w, t)) && id !in w.usedIds && file !in w.usedIds && id != file
    ensures
      var v := Serve(w, t, AddInvoice(p, id, file));
      && v.notices == w.notices
      && v.db == if Open(w.db, p)
         then w.db.(invoices := w.db.invoices[id := Invoice(p, InvoiceDraft, NewFileId(w, t, file))], files := NewFiles(w, t, file)) else w.db
  {
    hide Serve;
    ServedIs(w, t, AddInvoice(p, id, file));
  }

  /** A document replaces the one before, of draft and sent invoices only. */
  lemma ChangeInvoiceServed(w: World, t: nat, i: Id, file: Id)
    requires (Free(w, t) || WithUpload(w, t)) && file !in w.usedIds
    ensures
      var v := Serve(w, t, ChangeInvoice(i, file));
      var changes := OpenInvoice(w.db, i) && w.db.invoices[i].status in {InvoiceDraft, InvoiceSent} && WithUpload(w, t);
      && v.notices == w.notices
      && (changes ==> v.db == w.db.(invoices := w.db.invoices[i := w.db.invoices[i].(file := Some(file))],
                                    files := DeletedNow(NewFiles(w, t, file), w.db.invoices[i].file, w.clock)))
      && (!changes ==> v.db == w.db)
  {
    hide Serve;
    ServedIs(w, t, ChangeInvoice(i, file));
    if OpenInvoice(w.db, i) && w.db.invoices[i].file.None? {
      assert DeletedNow(NewFiles(w, t, file), None, w.clock) == NewFiles(w, t, file);
    }
  }

  lemma MoveInvoiceServed(w: World, t: nat, i: Id, to: InvoiceStatus)
    requires Free(w, t)
    ensures
      var v := Serve(w, t, MoveInvoice(i, to));
      if OpenInvoice(w.db, i) && (w.db.invoices[i].status, to) in {
           (InvoiceDraft, InvoiceSent), (InvoiceDraft, InvoiceCanceled), (InvoiceSent, InvoicePaid), (InvoiceSent, InvoiceCanceled)}
      then && v.db == w.db.(invoices := w.db.invoices[i := w.db.invoices[i].(status := to)])
           && v.notices == w.notices + if to.InvoiceSent? then [Notice("invoice.sent", i)] else []
      else v.db == w.db && v.notices == w.notices
  {
    hide Serve;
    ServedIs(w, t, MoveInvoice(i, to));
  }

  // ---- settings ----

  /** A new logo replaces the one that the cache named. */
  lemma SettingsServed(w: World, t: nat, file: Id)
    requires (Free(w, t) || WithUpload(w, t)) && file !in w.usedIds
    ensures
      var v := Serve(w, t, SaveSettings(file));
      && v.notices == w.notices
      && v.db == if WithUpload(w, t) then w.db.(logo := Some(file), files := DeletedNow(NewFiles(w, t, file), w.cached, w.clock)) else w.db
  {
    hide Serve;
    ServedIs(w, t, SaveSettings(file));
    if w.cached.None? {
      assert DeletedNow(NewFiles(w, t, file), None, w.clock) == NewFiles(w, t, file);
    }
  }

  // ---- one revision round ----

  /**
   * From every reachable state with a shared newest version in an open project: the client's request for a
   * revision is recorded, and the next version follows as a draft, without a reason.
   */
  lemma RevisionRound(w: World, t: nat, x: Id, c: Id, id: Id, file: Id)
    requires Reachable(w) && Free(w, t) && OpenVersion(w.db, x) && w.db.versions[x].state.Shared?
    requires c !in w.usedIds && id !in w.usedIds && file !in w.usedIds && c != id && c != file && id != file
    ensures
      var v := Serve(Serve(w, t, Answer(x, RevisionRequested, c)), t, AddVersion(w.db.versions[x].deliverable, false, id, file));
      && v.db.versions == w.db.versions[x := w.db.versions[x].(state := RevisionRequested)]
                          [id := Version(w.db.versions[x].deliverable, w.db.versions[x].number + 1, Draft, None)]
      && v.db.decisions == w.db.decisions[c := Decision(x, RevisionRequested)]
      && v.notices == w.notices + [Notice("decision", c)]
  {
    hide Reachable, Serve, Top, Open;
    var d, n := w.db.versions[x].deliverable, w.db.versions[x].number;
    var intent := Answer(x, RevisionRequested, c);
    AnswerServed(w, t, x, RevisionRequested, c);
    var u := Serve(w, t, intent);
    ServeReachable(w, t, intent);
    ServedIs(w, t, intent);
    LetThroughExactly(w, intent);
    OpenIsNewest(w, x);
    assert Top(u.db.versions, d, n, Some(RevisionRequested)) by { TopAt(u.db.versions, x); }
    assert OpenDeliverable(u.db, d) by { SameOpen(w.db, u.db, d); }
    VersionServed(u, t, d, false, id, file, n, Some(RevisionRequested));
  }

  lemma SameOpen(db: Db, db': Db, d: Id)
    requires OpenDeliverable(db, d) && db'.projects == db.projects && db'.deliverables == db.deliverables
    ensures OpenDeliverable(db', d)
  {
  }

  lemma ServeReachable(w: World, t: nat, intent: Intent)
    requires Reachable(w)
    ensures Reachable(Serve(w, t, intent))
  {
    hide Reachable, Do;
    ReachableDo(w, Read(t, intent));
    ReachableDo(Do(w, Read(t, intent)), Commit(t));
  }

  lemma OpenIsNewest(w: World, x: Id)
    requires Reachable(w) && x in w.db.versions && !w.db.versions[x].state.Final()
    ensures forall u | u in w.db.versions && w.db.versions[u].deliverable == w.db.versions[x].deliverable ::
      w.db.versions[u].number <= w.db.versions[x].number
  {
    hide Linked, GapFree, Unique, Decided, Distinct;
  }

  lemma TopAt(vs: Versions, x: Id)
    requires x in vs && forall u | u in vs && vs[u].deliverable == vs[x].deliverable :: vs[u].number <= vs[x].number
    ensures Top(vs, vs[x].deliverable, vs[x].number, Some(vs[x].state))
  {
  }

  // ---- a whole project ----

  ghost function ServeAll(w: World, t: nat, intents: seq<Intent>): World
    decreases |intents|
  {
    if intents == [] then w else ServeAll(Serve(w, t, intents[0]), t, intents[1..])
  }

  function StepsOf(t: nat, intents: seq<Intent>): seq<Step> {
    if intents == [] then [] else [Read(t, intents[0]), Commit(t)] + StepsOf(t, intents[1..])
  }

  /** Requests one after the other are a run of the server. */
  lemma {:induction false} ServeAllIsARun(w: World, t: nat, intents: seq<Intent>)
    ensures Run(w, StepsOf(t, intents)) == ServeAll(w, t, intents)
    decreases |intents|
  {
    hide Do;
    if intents != [] {
      var two := [Read(t, intents[0]), Commit(t)];
      RunAppend(w, two, StepsOf(t, intents[1..]));
      Closing.RunTwo(w, two[0], two[1]);
      ServeAllIsARun(Serve(w, t, intents[0]), t, intents[1..]);
    }
  }

  lemma OneMore(w: World, t: nat, intent: Intent, more: seq<Intent>)
    ensures ServeAll(w, t, [intent] + more) == ServeAll(Serve(w, t, intent), t, more)
  {
    hide Serve;
    assert ([intent] + more)[1..] == more;
  }

  /** What a request leaves beside the tables, when it goes through. */
  lemma ServedRest(w: World, t: nat, intent: Intent)
    requires Reachable(w) && Starts(w, t, intent) && Free(w, t) && Admits(w.db, intent) && !intent.SaveSettings?
    ensures
      var v := Serve(w, t, intent);
      Reachable(v) && v.usedIds == w.usedIds + NewIds(intent) && (v.db != w.db ==> v.pending == w.pending)
  {
    hide Reachable, Serve, See, Admits, Transact, NoticeOf, NewIds;
    LetThroughExactly(w, intent);
    ServedIs(w, t, intent);
    ServeReachable(w, t, intent);
  }

  const OPENING: seq<Intent> := [AddProject(0, 1), AddDeliverable(1, true, 2)]
  const FIRST_REVIEW: seq<Intent> := [AddVersion(2, false, 3, 4), Share(3)]
  const REVISION: seq<Intent> := [Answer(3, RevisionRequested, 5), AddVersion(2, false, 6, 7)]
  const SECOND_REVIEW: seq<Intent> := [Share(6), Answer(6, Approved, 8)]
  const CLOSING: seq<Intent> := [Sign(1, [2], 9)]

  const FIRST: Version := Version(2, 1, Draft, None)
  const SECOND: Version := Version(2, 2, Draft, None)

  /** Where the project stands in between. */
  ghost predicate Underway(w: World, vs: Versions, cs: Decisions, used: set<Id>) {
    && Reachable(w) && w.pending == map[] && w.usedIds == used
    && w.db == Schema.EMPTY.(projects := map[1 := Project(0, false)], deliverables := map[2 := Deliverable(1, true)], versions := vs, decisions := cs)
  }

  lemma TwoServed(w: World, a: Intent, b: Intent)
    ensures ServeAll(w, 0, [a, b]) == Serve(Serve(w, 0, a), 0, b)
  {
    hide Serve;
    assert [a, b] == [a] + ([b] + []);
    OneMore(w, 0, a, [b] + []);
    OneMore(Serve(w, 0, a), 0, b, []);
  }

  lemma Opens(clock: Moment)
    ensures
      var w := ServeAll(Start(clock), 0, OPENING);
      Underway(w, map[], map[], {1, 2}) && w.notices == []
  {
    hide Reachable, Serve;
    var w0, i := Start(clock), OPENING;
    TwoServed(w0, i[0], i[1]);
    StartReachable(clock);
    ProjectServed(w0, 0, 1, 0);
    ServedRest(w0, 0, i[0]);
    var w1 := Serve(w0, 0, i[0]);
    DeliverableServed(w1, 0, 1, 2, true);
    ServedRest(w1, 0, i[1]);
    assert {} + {1} + {2} == {1, 2};
  }

  lemma FirstReviewed(w0: World)
    requires Underway(w0, map[], map[], {1, 2}) && w0.notices == []
    ensures
      var w := ServeAll(w0, 0, FIRST_REVIEW);
      Underway(w, map[3 := FIRST.(state := Shared)], map[], {1, 2, 3, 4}) && w.notices == [Notice("version.shared", 3)]
  {
    hide Reachable, Serve, Top;
    var i := FIRST_REVIEW;
    TwoServed(w0, i[0], i[1]);
    TopNone(w0.db.versions, 2);
    VersionServed(w0, 0, 2, false, 3, 4, 0, None);
    ServedRest(w0, 0, i[0]);
    var w1 := Serve(w0, 0, i[0]);
    ShareServed(w1, 0, 3);
    ServedRest(w1, 0, i[1]);
    assert {1, 2} + {3, 4} + {} == {1, 2, 3, 4};
  }

  lemma TopNone(vs: Versions, d: Id)
    requires vs == map[]
    ensures Top(vs, d, 0, None)
  {
  }

  lemma Revised(w0: World)
    requires Underway(w0, map[3 := FIRST.(state := Shared)], map[], {1, 2, 3, 4})
    ensures
      var w := ServeAll(w0, 0, REVISION);
      && Underway(w, map[3 := FIRST.(state := RevisionRequested), 6 := SECOND], map[5 := Decision(3, RevisionRequested)], {1, 2, 3, 4, 5, 6, 7})
      && w.notices == w0.notices + [Notice("decision", 5)]
  {
    hide Reachable, Serve, Top;
    var i := REVISION;
    TwoServed(w0, i[0], i[1]);
    AnswerServed(w0, 0, 3, RevisionRequested, 5);
    ServedRest(w0, 0, i[0]);
    var w1 := Serve(w0, 0, i[0]);
    TopAt(w1.db.versions, 3);
    VersionServed(w1, 0, 2, false, 6, 7, 1, Some(RevisionRequested));
    ServedRest(w1, 0, i[1]);
    assert {1, 2, 3, 4} + {5} + {6, 7} == {1, 2, 3, 4, 5, 6, 7};
  }

  lemma SecondReviewed(w0: World)
    requires Underway(w0, map[3 := FIRST.(state := RevisionRequested), 6 := SECOND], map[5 := Decision(3, RevisionRequested)], {1, 2, 3, 4, 5, 6, 7})
    ensures
      var w := ServeAll(w0, 0, SECOND_REVIEW);
      && Underway(w, map[3 := FIRST.(state := RevisionRequested), 6 := SECOND.(state := Approved)],
                  map[5 := Decision(3, RevisionRequested), 8 := Decision(6, Approved)], {1, 2, 3, 4, 5, 6, 7, 8})
      && w.notices == w0.notices + [Notice("version.shared", 6), Notice("decision", 8)]
  {
    hide Reachable, Serve;
    var i := SECOND_REVIEW;
    TwoServed(w0, i[0], i[1]);
    ShareServed(w0, 0, 6);
    ServedRest(w0, 0, i[0]);
    var w1 := Serve(w0, 0, i[0]);
    AnswerServed(w1, 0, 6, Approved, 8);
    ServedRest(w1, 0, i[1]);
    assert {1, 2, 3, 4, 5, 6, 7} + {} + {8} == {1, 2, 3, 4, 5, 6, 7, 8};
  }

  lemma Closes(w: World)
    requires Underway(w, map[3 := FIRST.(state := RevisionRequested), 6 := SECOND.(state := Approved)],
                      map[5 := Decision(3, RevisionRequested), 8 := Decision(6, Approved)], {1, 2, 3, 4, 5, 6, 7, 8})
    requires w.notices == [Notice("version.shared", 3)] + [Notice("decision", 5)] + [Notice("version.shared", 6), Notice("decision", 8)]
    ensures Finished(ServeAll(w, 0, CLOSING))
  {
    hide Reachable, Serve, RowsOf, Lists, Finished, Readiness.ProjectReady;
    assert CLOSING == [CLOSING[0]] + [];
    OneMore(w, 0, CLOSING[0], []);
    Signable(w.db);
    SignServed(w, 0, 1, [2], 9);
    FinishedIs(w, Serve(w, 0, CLOSING[0]));
  }

  lemma Signable(db: Db)
    requires db.deliverables == map[2 := Deliverable(1, true)] && db.waivers == map[]
    requires db.versions == map[3 := FIRST.(state := RevisionRequested), 6 := SECOND.(state := Approved)]
    ensures Lists(db, [2], 1) && Readiness.ProjectReady(db, 1) && RowsOf(db, [2]) == [Row(2, 2, Some(Approved), "")]
  {
    hide NewestOf, WaiverOf;
    assert Required(db, 2, 1);
    assert Readiness.Good(db.versions, db.waivers, 2) by { assert Guards.NewestIn(db.versions, 6, 2); }
    Closing.NoWaiver(db, 2);
    assert Top(db.versions, 2, 2, Some(Approved)) by { TopAt(db.versions, 6); }
    TopIs(db, 2, 2, Some(Approved));
    assert RowsOf(db, [2]) == [RowOf(db, 2)];
  }

  /** The second version approved, the first one not, and the project signed off and closed. */
  ghost predicate Finished(w: World) {
    && w.db.projects == map[1 := Project(0, true)]
    && w.db.versions == map[3 := Version(2, 1, RevisionRequested, None), 6 := Version(2, 2, Approved, None)]
    && w.db.decisions == map[5 := Decision(3, RevisionRequested), 8 := Decision(6, Approved)]
    && w.db.signoffs == map[9 := Signoff(1, [Row(2, 2, Some(Approved), "")])]
    && w.notices == [Notice("version.shared", 3), Notice("decision", 5), Notice("version.shared", 6), Notice("decision", 8), Notice("signoff", 9)]
  }

  lemma FinishedIs(w: World, v: World)
    requires w.db.projects == map[1 := Project(0, false)] && w.db.signoffs == map[]
    requires w.db.versions == map[3 := FIRST.(state := RevisionRequested), 6 := SECOND.(state := Approved)]
    requires w.db.decisions == map[5 := Decision(3, RevisionRequested), 8 := Decision(6, Approved)]
    requires w.notices == [Notice("version.shared", 3)] + [Notice("decision", 5)] + [Notice("version.shared", 6), Notice("decision", 8)]
    requires v.notices == w.notices + [Notice("signoff", 9)]
    requires v.db == w.db.(signoffs := w.db.signoffs[9 := Signoff(1, [Row(2, 2, Some(Approved), "")])],
                           projects := w.db.projects[1 := w.db.projects[1].(closed := true)])
    ensures Finished(v)
  {
  }

  /**
   * A project from the empty database to its sign-off: a version is shared, a revision requested, the next
   * version shared and approved, and the project signed off; each step with its notice.
   */
  lemma WholeProject(clock: Moment)
    ensures Finished(Run(Start(clock), StepsOf(0, OPENING + FIRST_REVIEW + REVISION + SECOND_REVIEW + CLOSING)))
  {
    hide Finished, Underway, Run, Start, ServeAll;
    var w := Start(clock);
    ServeAllIsARun(w, 0, OPENING + FIRST_REVIEW + REVISION + SECOND_REVIEW + CLOSING);
    ServeAllAppend(w, 0, OPENING + FIRST_REVIEW + REVISION + SECOND_REVIEW, CLOSING);
    ServeAllAppend(w, 0, OPENING + FIRST_REVIEW + REVISION, SECOND_REVIEW);
    ServeAllAppend(w, 0, OPENING + FIRST_REVIEW, REVISION);
    ServeAllAppend(w, 0, OPENING, FIRST_REVIEW);
    Opens(clock);
    var w1 := ServeAll(w, 0, OPENING);
    FirstReviewed(w1);
    var w2 := ServeAll(w1, 0, FIRST_REVIEW);
    Revised(w2);
    var w3 := ServeAll(w2, 0, REVISION);
    SecondReviewed(w3);
    Closes(ServeAll(w3, 0, SECOND_REVIEW));
  }

  lemma {:induction false} ServeAllAppend(w: World, t: nat, a: seq<Intent>, b: seq<Intent>)
    ensures ServeAll(w, t, a + b) == ServeAll(ServeAll(w, t, a), t, b)
    decreases |a|
  {
    hide Serve;
    if a == [] {
      assert a + b == b;
    } else {
      assert (a + b)[1..] == a[1..] + b;
      ServeAllAppend(Serve(w, t, a[0]), t, a[1..], b);
    }
  }

  // ---- requests that end early ----

  /** A request that is dropped, given up, or cut off by a restart after its read changes nothing any more. */
  lemma LostRequest(w: World, t: nat, s: Step)
    requires s == Drop(t) || s == Restart || (s == GiveUp(t) && t in w.pending && w.pending[t].Request? && w.pending[t].upload.Some?)
    ensures
      var v := Do(Do(w, s), Commit(t));
      v.db == w.db && v.notices == w.notices
  {
  }

  /** A purge that is stopped, or cut off by a restart, deletes nothing any more. */
  lemma LostPurge(w: World, t: nat, s: Step)
    requires s == StopPurge(t) || s == Restart
    ensures
      var v := Do(w, s);
      Do(v, PurgeBlob(t)) == v && Do(v, PurgeRow(t)) == v && v.db == w.db && v.blobs == w.blobs
  {
  }
}
