/**
 * The transactions in the form the handlers have (internal/web/deliverables.go, portal.go, invoices.go,
 * settings.go, projects.go, export.go; cmd/briefrelay/main.go): statements that change one table after
 * the other, proved to have the effect that Schema gives them; and the purge loop over blobs and rows.
 */
module Server {
  import opened Basics
  import opened Timestamps
  import opened JobTable
  import opened Domain
  import opened Schema
  import Approval
  import Handoff
  import Identity
  import FileTables
  import Requests
  import Storage
  import Effects
  import LogoSwap
  import Races

  class Database {
    var tables: Db

    constructor (db: Db)
      ensures tables == db
    {
      tables := db;
    }

    // ---- statements ----

    /** SELECT id ... ORDER BY number DESC LIMIT 1; numbers are unique, so the row is determined. */
    method Latest(d: Id) returns (v: Option<Id>)
      requires Approval.Unique(tables.versions)
      ensures v == NewestOf(tables, d) && (v.Some? ==> v.value in tables.versions)
    {
      hide NewestOf, Approval.Unique;
      var of := set u | u in tables.versions && Belongs(tables, u, d);
      Approval.NewestExists(tables, d);
      if of == {} {
        assert forall u :: Belongs(tables, u, d) ==> u in of;
        return None;
      }
      ghost var some :| some in of;
      assert Belongs(tables, some, d);
      assert Newest(tables, NewestOf(tables, d).value, d);
      var u: Id :| u in tables.versions && Newest(tables, u, d);
      Handoff.JoinFindsNewest(tables, u, d);
      return Some(u);
    }

    method InsertUpload(up: Option<Upload>)
      modifies this
      ensures tables == InsertFile(old(tables), up)
    {
      if up.Some? {
        tables := tables.(files := tables.files[up.value.id := File(up.value.key, None)]);
      }
    }

    // ---- deliverables.go ----

    method VersionCreate(d: Id, id: Id, up: Option<Upload>, reasonOk: bool) returns (ok: bool)
      requires Approval.Unique(tables.versions)
      modifies this
      ensures ok <==> CreateVersion(old(tables), d, id, up, reasonOk).Committed?
      ensures tables == CreateVersion(old(tables), d, id, up, reasonOk).Else(old(tables))
    {
      hide NewestOf, Approval.Unique, InsertFile;
      var before := tables;
      var latest := Latest(d);
      var state, number := None, 0;
      if latest.Some? {
        state, number := Some(tables.versions[latest.value].state), tables.versions[latest.value].number;
      }
      var needsReason := NewVersion(state);
      if needsReason.None? || (needsReason.value && !reasonOk) {
        return false;
      }
      InsertUpload(up);
      Identity.InsertFileOnly(before, up);
      if d !in tables.deliverables {
        tables := before;
        return false;
      }
      tables := tables.(versions := tables.versions[id := Version(d, number + 1, Draft, FileId(up))]);
      return true;
    }

    /** The compare-and-set of transition and portalDecide: no row matched means somebody was faster. */
    method SetState(v: Id, from: VersionState, to: VersionState) returns (ok: bool)
      modifies this
      ensures ok <==> MoveVersion(old(tables), v, from, to).Committed?
      ensures tables == MoveVersion(old(tables), v, from, to).Else(old(tables))
      ensures from.Rank() < to.Rank() && ok ==> Races.MovedPast(old(tables), tables, v, from)
    {
      ok := v in tables.versions && tables.versions[v].state == from;
      if ok {
        tables := tables.(versions := tables.versions[v := tables.versions[v].(state := to)]);
      }
    }

    method VersionDelete(v: Id, file: Option<Id>, now: Moment) returns (ok: bool)
      modifies this
      ensures ok <==> DeleteDraft(old(tables), v, file, now).Committed?
      ensures tables == DeleteDraft(old(tables), v, file, now).Else(old(tables))
      ensures ok ==> Races.MovedPast(old(tables), tables, v, Draft)
      ensures Approval.Sound(old(tables)) ==> Approval.Sound(tables) && (ok <==> v in old(tables).versions && old(tables).versions[v].state.Draft?)
    {
      hide MarkDeleted, HasDecision, Approval.Sound, Races.MovedPast;
      Races.DeleteMovesPast(tables, v, file, now);
      if Approval.Sound(tables) {
        Approval.DeleteDraftSound(tables, v, file, now);
      }
      if v !in tables.versions || tables.versions[v].state != Draft || HasDecision(tables, v) {
        return false;
      }
      tables := DropVersions(tables, {v});
      if file.Some? {
        tables := MarkDeleted(tables, {file.value}, now);
      }
      return true;
    }

    method DeliverableDelete(d: Id, now: Moment) returns (ok: bool)
      modifies this
      ensures ok <==> DeleteDeliverable(old(tables), d, now).Committed?
      ensures tables == DeleteDeliverable(old(tables), d, now).Else(old(tables))
      ensures Approval.Sound(old(tables)) ==>
        && (ok <==> forall v | v in old(tables).versions && old(tables).versions[v].deliverable == d :: old(tables).versions[v].state.Draft?)
        && (ok ==> Effects.OnlyWithout(old(tables), tables, d))
    {
      hide MarkDeleted, FilesOf, HasDecision, Approval.Sound, Effects.OnlyWithout, Effects.HeldBelow;
      if Approval.Sound(tables) {
        Effects.DeliverableGoesExactly(tables, d, now);
      }
      var vs := set v | v in tables.versions && Belongs(tables, v, d);
      if exists v :: v in vs && tables.versions[v].state != Draft {
        return false;
      }
      if exists v :: v in vs && HasDecision(tables, v) {
        return false;
      }
      tables := MarkDeleted(tables, FilesOf(tables, vs), now);
      tables := DropVersions(tables, vs);
      tables := tables.(waivers := map w | w in tables.waivers && tables.waivers[w].deliverable != d :: tables.waivers[w]);
      tables := tables.(deliverables := tables.deliverables - {d});
      return true;
    }

    // ---- portal.go ----

    method PortalDecide(v: Id, to: VersionState, id: Id) returns (ok: bool)
      modifies this
      ensures ok <==> Decide(old(tables), v, to, id).Committed?
      ensures tables == Decide(old(tables), v, to, id).Else(old(tables))
      ensures ok && Approval.Answered(to) ==> Races.MovedPast(old(tables), tables, v, Shared)
      ensures Approval.Sound(old(tables)) && Approval.Answered(to) && id !in old(tables).decisions ==> Approval.Sound(tables)
    {
      hide Approval.Sound;
      if Approval.Sound(tables) && Approval.Answered(to) && id !in tables.decisions {
        Approval.DecideSound(tables, v, to, id);
      }
      ok := SetState(v, Shared, to);
      if ok {
        tables := tables.(decisions := tables.decisions[id := Decision(v, to)]);
      }
    }

    /** The sign-off is recorded whether or not the project was still open. */
    method PortalSignoff(p: Id, id: Id, rows: seq<Row>) returns (ok: bool)
      modifies this
      ensures ok <==> SignOff(old(tables), p, id, rows).Committed?
      ensures tables == SignOff(old(tables), p, id, rows).Else(old(tables))
    {
      if p !in tables.projects {
        return false;
      }
      tables := tables.(signoffs := tables.signoffs[id := Signoff(p, rows)]);
      if !tables.projects[p].closed {
        tables := tables.(projects := tables.projects[p := tables.projects[p].(closed := true)]);
      }
      assert tables.projects == old(tables).projects[p := old(tables).projects[p].(closed := true)];
      return true;
    }

    // ---- invoices.go ----

    method InvoiceEdit(i: Id, up: Option<Upload>, now: Instant) returns (ok: bool)
      modifies this
      ensures ok <==> EditInvoice(old(tables), i, up, now).Committed?
      ensures tables == EditInvoice(old(tables), i, up, now).Else(old(tables))
    {
      hide MarkDeleted;
      if i !in tables.invoices || tables.invoices[i].status.Rank() == 2 {
        return false;
      }
      var was := tables.invoices[i].file;
      var file := was;
      if up.Some? {
        InsertUpload(up);
        if was.Some? {
          MarkedOnlyFiles(tables, {was.value}, now);
          tables := MarkDeleted(tables, {was.value}, now);
        }
        file := FileId(up);
      }
      tables := tables.(invoices := tables.invoices[i := tables.invoices[i].(file := file)]);
      assert up.None? ==> tables.invoices == old(tables).invoices;
      return true;
    }

    method InvoiceStatusChange(i: Id, to: InvoiceStatus) returns (ok: bool)
      modifies this
      ensures ok <==> SetInvoiceStatus(old(tables), i, to).Committed?
      ensures tables == SetInvoiceStatus(old(tables), i, to).Else(old(tables))
      ensures i in old(tables).invoices && to.Rank() <= old(tables).invoices[i].status.Rank() ==> !ok
      ensures ok ==> i in tables.invoices && tables.invoices[i].status == to
    {
      ok := i in tables.invoices && InvoiceTransition(tables.invoices[i].status, to);
      if ok {
        tables := tables.(invoices := tables.invoices[i := tables.invoices[i].(status := to)]);
      }
    }

    // ---- settings.go ----

    method SettingsSave(up: Option<Upload>, cached: Option<Id>, now: Instant)
      modifies this
      ensures tables == SaveLogo(old(tables), up, cached, now).Else(old(tables))
      ensures up.Some? && Replaces(old(tables), up.value, cached) && LogoSwap.LiveHeld(old(tables)) ==>
        (LogoSwap.LiveHeld(tables) <==> old(tables).logo.None? || cached == old(tables).logo)
    {
      hide MarkDeleted, LogoSwap.LiveHeld, Replaces;
      if up.Some? && Replaces(tables, up.value, cached) && LogoSwap.LiveHeld(tables) {
        SwapHeld(tables, up.value, cached, now);
      }
      if up.Some? {
        InsertUpload(up);
        if cached.Some? {
          tables := MarkDeleted(tables, {cached.value}, now);
        }
        tables := tables.(logo := Some(up.value.id));
      }
    }

    // ---- export.go ----

    /** deleteProjects for one project: files, decisions, then the project with all that cascades. */
    method ProjectDelete(p: Id, now: Instant)
      modifies this
      ensures DeleteProject(old(tables), p, now) == Committed(tables)
    {
      hide MarkDeleted, FilesOf, HasDecision, InProject, DeleteProject;
      var before := tables;
      var vs := set v | v in tables.versions && InProject(tables, v, p);
      var documents := set i | i in tables.invoices && tables.invoices[i].project == p && tables.invoices[i].file.Some? :: tables.invoices[i].file.value;
      tables := MarkDeleted(tables, FilesOf(tables, vs) + documents, now);
      tables := tables.(decisions := map c | c in tables.decisions && tables.decisions[c].version !in vs :: tables.decisions[c]);
      tables := CascadeProject(before, tables, vs, p);
      ProjectGoes(before, p, now);
    }

    // ---- main.go ----

    /**
     * cleanupFiles, undisturbed: choose rows deleted more than seven days ago, five hundred at most, and
     * delete each one's blob and then its row. When held files are live no foreign key objects, and what
     * is left due is nothing, or the batch was full.
     */
    method CleanupFiles(store: Storage.Local, now: Moment) returns (ok: bool, ghost doomed: set<Id>)
      requires FileTables.HeldLive(tables) && forall f | f in tables.files :: ValidKey(tables.files[f].key)
      modifies this, store
      ensures ok
      ensures forall f | f in doomed :: Overdue(old(tables), f, now)
      ensures forall f | f in doomed ::
        f in old(tables).files && old(tables).files[f].deletedAt.Some? && old(tables).files[f].deletedAt.value + 7 * DAY < now + SECOND
      ensures |doomed| <= 500
      ensures |doomed| < 500 ==> forall f | f in old(tables).files && Overdue(old(tables), f, now) :: f in doomed
      ensures |doomed| < 500 ==> forall f | f in old(tables).files && old(tables).files[f].deletedAt.Some? ::
        old(tables).files[f].deletedAt.value + 7 * DAY + SECOND <= now ==> f in doomed
      ensures tables == old(tables).(files := old(tables).files - doomed)
      ensures store.objects == old(store.objects) - KeysOf(old(tables), doomed)
      ensures store.temps == Storage.Fresh(old(store.temps), 24 * HOUR, now)
    {
      hide KeysOf, Overdue, Storage.Fresh, FileTables.HeldLive, ValidKey;
      store.CleanTemp(24 * HOUR, now);
      var rows := Select(now);
      ok, doomed := PurgeRows(store, rows, now);
      OverdueMeans(old(tables), now);
    }

    /** Its loop: each row's blob, and then the row. */
    method PurgeRows(store: Storage.Local, rows: seq<(Id, Key)>, now: Moment) returns (ok: bool, ghost doomed: set<Id>)
      requires FileTables.HeldLive(tables) && forall f | f in tables.files :: ValidKey(tables.files[f].key)
      requires forall x | x in rows :: Overdue(tables, x.0, now) && tables.files[x.0].key == x.1
      requires forall i, j | 0 <= i < j < |rows| :: rows[i].0 != rows[j].0
      modifies this, store`objects
      ensures ok && |doomed| == |rows| && doomed == set k | 0 <= k < |rows| :: rows[k].0
      ensures tables == old(tables).(files := old(tables).files - doomed)
      ensures store.objects == old(store.objects) - KeysOf(old(tables), doomed)
    {
      hide KeysOf, Overdue, Referenced, FileTables.HeldLive, ValidKey;
      doomed := {};
      KeysOfNone(tables);
      ghost var start := tables;
      var i := 0;
      while i < |rows|
        invariant 0 <= i <= |rows|
        invariant doomed == set k | 0 <= k < i :: rows[k].0
        invariant tables == start.(files := start.files - doomed)
        invariant store.objects == old(store.objects) - KeysOf(start, doomed)
      {
        var x := rows[i];
        assert x in rows;
        KeysOfMore(start, doomed, x.0, now);
        var deleted := store.Delete(x.1);
        if !deleted {
          return false, doomed;
        }
        DueIsFree(start, tables, x.0, now);
        if Referenced(tables, x.0) {
          return false, doomed;
        }
        tables := tables.(files := tables.files - {x.0});
        doomed := doomed + {x.0};
        i := i + 1;
      }
      BatchSize(rows, doomed);
      return true, doomed;
    }

    /** SELECT id, storage_key FROM files WHERE deleted_at < now - 7 days LIMIT 500. */
    method Select(now: Moment) returns (rows: seq<(Id, Key)>)
      ensures |rows| <= 500
      ensures forall x | x in rows :: Overdue(tables, x.0, now) && tables.files[x.0].key == x.1
      ensures forall x | x in rows :: x.0 in tables.files && tables.files[x.0].deletedAt.Some? && tables.files[x.0].deletedAt.value + 7 * DAY < now + SECOND
      ensures forall i, j | 0 <= i < j < |rows| :: rows[i].0 != rows[j].0
      ensures |rows| < 500 ==>
        forall f | f in tables.files && Overdue(tables, f, now) :: exists k :: 0 <= k < |rows| && rows[k].0 == f
      ensures |rows| < 500 ==>
        forall f | f in tables.files && tables.files[f].deletedAt.Some? && tables.files[f].deletedAt.value + 7 * DAY + SECOND <= now ::
          exists k :: 0 <= k < |rows| && rows[k].0 == f
    {
      hide Before, Overdue;
      OverdueIn(tables, now);
      rows := [];
      var todo := set f | f in tables.files && Overdue(tables, f, now);
      while todo != {} && |rows| < Requests.PURGE_LIMIT
        invariant |rows| <= Requests.PURGE_LIMIT
        invariant forall f | f in todo :: Overdue(tables, f, now)
        invariant forall x | x in rows :: Overdue(tables, x.0, now) && tables.files[x.0].key == x.1 && x.0 !in todo
        invariant forall i, j | 0 <= i < j < |rows| :: rows[i].0 != rows[j].0
        invariant forall f | f in tables.files && Overdue(tables, f, now) :: f in todo || exists k :: 0 <= k < |rows| && rows[k].0 == f
        decreases |todo|
      {
        var f: Id :| f in todo;
        todo := todo - {f};
        ghost var was := rows;
        rows := rows + [(f, tables.files[f].key)];
        assert rows[|was|].0 == f && forall k | 0 <= k < |was| :: rows[k] == was[k];
      }
      OverdueMeans(tables, now);
    }
  }

  /** A new file replaces a logo: the tables are tidy, and the cache named no other file that is in use. */
  ghost predicate Replaces(db: Db, up: Upload, cached: Option<Id>) {
    && FileTables.Tidy(db) && FileTables.NewFile(db, Some(up))
    && (cached.Some? ==> cached.value != up.id && forall x: Slot | x != LogoFile :: FileIn(db, x) != cached)
  }

  lemma SwapHeld(db: Db, up: Upload, cached: Option<Id>, now: Instant)
    requires Replaces(db, up, cached) && LogoSwap.LiveHeld(db)
    ensures LogoSwap.LiveHeld(SaveLogo(db, Some(up), cached, now).Else(db)) <==> db.logo.None? || cached == db.logo
  {
    hide LogoSwap.LiveHeld, FileTables.Tidy, FileTables.NewFile;
    LogoSwap.SwapExact(db, up, cached, now);
  }

  /** The row is one that the purge may choose. */
  predicate Overdue(db: Db, f: Id, now: Moment) { f in db.files && Requests.Due(db, (f, db.files[f].key), now) }

  lemma OverdueIn(db: Db, now: Moment)
    ensures forall f | Overdue(db, f, now) :: f in db.files
  {
    hide Before;
  }

  /** The seven days, as times: right up to the second that text order may hide. */
  lemma OverdueMeans(db: Db, now: Moment)
    ensures forall f | Overdue(db, f, now) ::
      f in db.files && db.files[f].deletedAt.Some? && db.files[f].deletedAt.value + 7 * DAY < now + SECOND
    ensures forall f | f in db.files && db.files[f].deletedAt.Some? ::
      db.files[f].deletedAt.value + 7 * DAY + SECOND <= now ==> Overdue(db, f, now)
  {
    hide Before, NotAfter;
    forall f | f in db.files && db.files[f].deletedAt.Some?
      ensures Overdue(db, f, now) ==> db.files[f].deletedAt.value + 7 * DAY < now + SECOND
      ensures db.files[f].deletedAt.value + 7 * DAY + SECOND <= now ==> Overdue(db, f, now)
    {
      WithinASecond(db.files[f].deletedAt.value, now - 7 * DAY);
    }
  }

  function KeysOf(db: Db, fs: set<Id>): set<Key> { set f | f in fs && f in db.files :: db.files[f].key }

  /** The foreign keys that name a file: versions, invoices and the logo. */
  predicate Referenced(db: Db, f: Id) {
    || (exists v :: v in db.versions && db.versions[v].file == Some(f))
    || (exists i :: i in db.invoices && db.invoices[i].file == Some(f))
    || db.logo == Some(f)
  }

  lemma ReferencedIsHeld(db: Db, f: Id)
    ensures Referenced(db, f) <==> Held(db, f)
  {
    forall v | v in db.versions && db.versions[v].file == Some(f)
      ensures Held(db, f)
    {
      assert FileIn(db, VersionFile(v)) == Some(f);
    }
    forall i | i in db.invoices && db.invoices[i].file == Some(f)
      ensures Held(db, f)
    {
      assert FileIn(db, InvoiceFile(i)) == Some(f);
    }
    assert FileIn(db, LogoFile) == db.logo;
  }

  lemma KeysOfMore(db: Db, fs: set<Id>, f: Id, now: Moment)
    requires Overdue(db, f, now)
    ensures f in db.files && KeysOf(db, fs + {f}) == KeysOf(db, fs) + {db.files[f].key}
  {
    hide Before;
  }

  lemma KeysOfNone(db: Db)
    ensures KeysOf(db, {}) == {}
  {
  }

  lemma DueIsFree(start: Db, db: Db, f: Id, now: Moment)
    requires FileTables.HeldLive(start) && Overdue(start, f, now) && db == start.(files := db.files)
    ensures !Referenced(db, f)
  {
    hide Before;
    ReferencedIsHeld(db, f);
    assert forall s: Slot :: FileIn(db, s) == FileIn(start, s);
  }

  lemma {:induction false} BatchSize(rows: seq<(Id, Key)>, ids: set<Id>)
    requires ids == set k | 0 <= k < |rows| :: rows[k].0
    requires forall i, j | 0 <= i < j < |rows| :: rows[i].0 != rows[j].0
    ensures |ids| == |rows|
  {
    if rows == [] {
      assert ids == {};
    } else {
      var init, last := rows[..|rows| - 1], rows[|rows| - 1].0;
      var fewer := set k | 0 <= k < |init| :: init[k].0;
      assert ids == fewer + {last} && last !in fewer;
      BatchSize(init, fewer);
    }
  }

  /** What DELETE FROM projects takes along: versions, deliverables, waivers, sign-offs and invoices. */
  function CascadeProject(before: Db, db: Db, vs: set<Id>, p: Id): Db {
    var db1 := DropVersions(db, vs);
    db1.(
      projects := db1.projects - {p},
      deliverables := map d | d in db1.deliverables && db1.deliverables[d].project != p :: db1.deliverables[d],
      waivers := map w | w in db1.waivers && !(db1.waivers[w].deliverable in before.deliverables && before.deliverables[db1.waivers[w].deliverable].project == p) :: db1.waivers[w],
      signoffs := map s | s in db1.signoffs && db1.signoffs[s].project != p :: db1.signoffs[s],
      invoices := map i | i in db1.invoices && db1.invoices[i].project != p :: db1.invoices[i])
  }

  /** The decisions are gone before the versions, so nothing objects. */
  lemma ProjectGoes(db: Db, p: Id, now: Instant)
    ensures
      var vs := set v | v in db.versions && InProject(db, v, p);
      var documents := set i | i in db.invoices && db.invoices[i].project == p && db.invoices[i].file.Some? :: db.invoices[i].file.value;
      var db1 := MarkDeleted(db, FilesOf(db, vs) + documents, now);
      var db2 := db1.(decisions := map c | c in db1.decisions && db1.decisions[c].version !in vs :: db1.decisions[c]);
      DeleteProject(db, p, now) == Committed(CascadeProject(db, db2, vs, p))
  {
    hide MarkDeleted, FilesOf, HasDecision, InProject;
    Approval.DeleteProjectCommits(db, p, now);
  }

  lemma MarkedOnlyFiles(db: Db, ids: set<Id>, now: Instant)
    ensures MarkDeleted(db, ids, now) == db.(files := MarkDeleted(db, ids, now).files)
  {
  }
}
