/**
 * Soft deletion is exact but for one race (internal/web/settings.go): settingsSave marks the logo that
 * the settings cache named, not the one in the database. While settings are saved one at a time a
 * file is live exactly when something holds it; two overlapping saves leave a live file that nothing
 * holds, which the purge will never take.
 */
module LogoSwap {
  import opened Basics
  import opened Timestamps
  import opened JobTable
  import opened Domain
  import opened Schema
  import opened Requests
  import opened Identity
  import opened Approval
  import opened FileTables
  import opened FileLife
  import Closing

  ghost predicate LiveHeld(db: Db) { forall f | Live(db, f) :: Held(db, f) }

  // ---- each transaction ----

  lemma StillHeld(db: Db, db': Db, f: Id)
    requires Held(db, f) && forall s: Slot | FileIn(db, s) == Some(f) :: FileIn(db', s) == Some(f)
    ensures Held(db', f)
  {
    hide FileIn;
    var s: Slot :| FileIn(db, s) == Some(f);
    assert FileIn(db', s) == Some(f);
  }

  /** No slot lost a file that is still live, and the new file is in slot s. */
  lemma KeptHeld(db: Db, db': Db, s: Slot, up: Option<Schema.Upload>, now: Instant)
    requires LiveHeld(db) && RowsStep(db, db', up, now)
    requires up.Some? ==> FileIn(db', s) == FileId(up)
    requires forall x: Slot | FileIn(db, x).Some? && Live(db', FileIn(db, x).value) :: FileIn(db', x) == FileIn(db, x)
    ensures LiveHeld(db')
  {
    hide FileIn;
    forall f | Live(db', f)
      ensures Held(db', f)
    {
      if f in db.files {
        assert Live(db, f);
        StillHeld(db, db', f);
      } else {
        assert FileIn(db', s) == Some(f);
      }
    }
  }

  lemma StepRows(db: Db, db': Db, up: Option<Schema.Upload>, now: Instant)
    requires FileStep(db, db', up, now)
    ensures RowsStep(db, db', up, now)
  {
  }

  lemma SlotsKept(db: Db, db': Db, up: Option<Schema.Upload>, now: Instant)
    requires Tidy(db) && LiveHeld(db) && db'.files == db.files && SameHolders(db, db')
    ensures LiveHeld(db')
  {
    assert forall s: Slot :: FileIn(db', s) == FileIn(db, s);
    forall f | Live(db', f)
      ensures Held(db', f)
    {
      StillHeld(db, db', f);
    }
  }

  lemma CreateVersionHeld(db: Db, d: Id, id: Id, up: Option<Schema.Upload>, reasonOk: bool, now: Instant)
    requires Tidy(db) && LiveHeld(db) && NewFile(db, up) && id !in db.versions
    ensures LiveHeld(CreateVersion(db, d, id, up, reasonOk).Else(db))
  {
    hide NewestOf, Tidy, InsertFile, LiveHeld, RowsStep;
    var r := CreateVersion(db, d, id, up, reasonOk);
    if r.Committed? {
      CreateVersionFiles(db, d, id, up, reasonOk, now);
      StepRows(db, r.db, up, now);
      InsertFileOnly(db, up);
      KeptHeld(db, r.db, VersionFile(id), up, now);
    }
  }

  lemma CreateInvoiceHeld(db: Db, p: Id, id: Id, up: Option<Schema.Upload>, now: Instant)
    requires Tidy(db) && LiveHeld(db) && NewFile(db, up) && id !in db.invoices
    ensures LiveHeld(CreateInvoice(db, p, id, up).Else(db))
  {
    hide Tidy, InsertFile, LiveHeld, RowsStep;
    var r := CreateInvoice(db, p, id, up);
    if r.Committed? {
      CreateInvoiceFiles(db, p, id, up, now);
      StepRows(db, r.db, up, now);
      InsertFileOnly(db, up);
      KeptHeld(db, r.db, InvoiceFile(id), up, now);
    }
  }

  /** Slot s swaps what it held for the upload, and what it held is marked. */
  lemma SwapHeld(db: Db, db': Db, s: Slot, up: Option<Schema.Upload>, now: Instant)
    requires Tidy(db) && LiveHeld(db) && NewFile(db, up) && up.Some?
    requires RowsStep(db, db', up, now)
    requires FileIn(db', s) == FileId(up) && forall x: Slot | x != s :: FileIn(db', x) == FileIn(db, x)
    requires FileIn(db, s).Some? ==> !Live(db', FileIn(db, s).value)
    ensures LiveHeld(db')
  {
    hide FileIn, Tidy, LiveHeld, RowsStep;
    KeptHeld(db, db', s, up, now);
  }

  lemma EditInvoiceHeld(db: Db, i: Id, up: Option<Schema.Upload>, now: Instant)
    requires Tidy(db) && LiveHeld(db) && NewFile(db, up)
    ensures LiveHeld(EditInvoice(db, i, up, now).Else(db))
  {
    hide InsertFile, MarkDeleted, Tidy, LiveHeld, RowsStep;
    var r := EditInvoice(db, i, up, now);
    if r.Committed? && up.Some? {
      EditInvoiceFiles(db, i, up, now);
      StepRows(db, r.db, up, now);
      EditInvoiceDoes(db, i, up, now);
      if db.invoices[i].file.Some? {
        Marked(InsertFile(db, up), {db.invoices[i].file.value}, now);
      }
      SwapHeld(db, r.db, InvoiceFile(i), up, now);
    }
  }

  lemma Marked(db: Db, fs: set<Id>, now: Instant)
    ensures forall f | f in fs :: !Live(MarkDeleted(db, fs, now), f)
  {
  }

  lemma SaveLogoHeld(db: Db, up: Option<Schema.Upload>, was: Option<Id>, now: Instant)
    requires Tidy(db) && LiveHeld(db) && NewFile(db, up)
    requires was.Some? ==> (up.Some? ==> was.value != up.value.id) && forall x: Slot | x != LogoFile :: FileIn(db, x) != was
    requires up.Some? && db.logo.Some? ==> was == db.logo
    ensures LiveHeld(SaveLogo(db, up, was, now).Else(db))
  {
    hide InsertFile, MarkDeleted, Tidy, LiveHeld, RowsStep;
    var r := SaveLogo(db, up, was, now);
    if up.Some? {
      SaveLogoFiles(db, up, was, now);
      StepRows(db, r.db, up, now);
      InsertFileOnly(db, up);
      if was.Some? {
        Marked(InsertFile(db, up), {was.value}, now);
        MarkDeletedOnly(InsertFile(db, up), {was.value}, now);
      }
      SwapHeld(db, r.db, LogoFile, up, now);
    }
  }

  /** Emptied slots held files that are marked now. */
  lemma DropHeld(db: Db, db': Db, gone: set<Id>, now: Instant)
    requires LiveHeld(db) && db'.files == MarkDeleted(db, gone, now).files
    requires forall s: Slot | FileIn(db, s).Some? :: FileIn(db', s) == FileIn(db, s) || FileIn(db, s).value in gone
    ensures LiveHeld(db')
  {
    hide FileIn;
    forall f | Live(db', f)
      ensures Held(db', f)
    {
      assert f in db.files && f !in gone && Live(db, f);
      StillHeld(db, db', f);
    }
  }

  lemma DeleteDraftHeld(db: Db, v: Id, file: Option<Id>, now: Instant)
    requires LiveHeld(db) && (v in db.versions ==> db.versions[v].file == file)
    ensures LiveHeld(DeleteDraft(db, v, file, now).Else(db))
  {
    hide HasDecision, MarkDeleted, LiveHeld;
    var r := DeleteDraft(db, v, file, now);
    if r.Committed? {
      var db1 := DropVersions(db, {v});
      var gone: set<Id> := if file.Some? then {file.value} else {};
      MarkDeletedOnly(db1, gone, now);
      MarkDeletedFiles(db1, db, gone, now);
      if file.None? {
        MarkNone(db, now);
      }
      DropHeld(db, r.db, gone, now);
    }
  }

  lemma MarkNone(db: Db, now: Instant)
    ensures MarkDeleted(db, {}, now).files == db.files
  {
  }

  lemma DeleteDeliverableHeld(db: Db, d: Id, now: Instant)
    requires LiveHeld(db)
    ensures LiveHeld(DeleteDeliverable(db, d, now).Else(db))
  {
    hide MarkDeleted, LiveHeld, DeleteDeliverable;
    var r := DeleteDeliverable(db, d, now);
    if r.Committed? {
      DeleteDeliverableDoes(db, d, now);
      DropHeld(db, r.db, FilesOf(db, set v | v in db.versions && Belongs(db, v, d)), now);
    }
  }

  lemma DeleteProjectHeld(db: Db, p: Id, now: Instant)
    requires LiveHeld(db)
    ensures LiveHeld(DeleteProject(db, p, now).Else(db))
  {
    hide MarkDeleted, LiveHeld, DeleteProject, InProject;
    var r := DeleteProject(db, p, now);
    if r.Committed? {
      DeleteProjectDoes(db, p, now);
      DropHeld(db, r.db, FilesOf(db, set v | v in db.versions && InProject(db, v, p)) + InvoicesOf(db, p), now);
    }
  }

  /** Every slot holds what it held. */
  lemma SameSlotsHeld(db: Db, db': Db)
    requires LiveHeld(db) && db'.files == db.files && forall s: Slot :: FileIn(db', s) == FileIn(db, s)
    ensures LiveHeld(db')
  {
    hide FileIn;
    forall f | Live(db', f)
      ensures Held(db', f)
    {
      StillHeld(db, db', f);
    }
  }

  lemma MovesHeld(db: Db, v: Id, from: VersionState, to: VersionState, id: Id)
    requires LiveHeld(db)
    ensures LiveHeld(MoveVersion(db, v, from, to).Else(db))
  {
    hide LiveHeld;
    SameSlotsHeld(db, MoveVersion(db, v, from, to).Else(db));
  }

  lemma DecideHeld(db: Db, v: Id, to: VersionState, id: Id)
    requires LiveHeld(db)
    ensures LiveHeld(Decide(db, v, to, id).Else(db))
  {
    hide LiveHeld;
    SameSlotsHeld(db, Decide(db, v, to, id).Else(db));
  }

  lemma InvoiceStatusHeld(db: Db, i: Id, to: InvoiceStatus)
    requires LiveHeld(db)
    ensures LiveHeld(SetInvoiceStatus(db, i, to).Else(db))
  {
    hide LiveHeld;
    SameSlotsHeld(db, SetInvoiceStatus(db, i, to).Else(db));
  }

  lemma PlainHeld(db: Db, r: Pending, now: Moment)
    requires r.Request? && Fileless(r.intent) && Tidy(db) && LiveHeld(db)
    ensures LiveHeld(Transact(db, r, now).Else(db))
  {
    hide Tidy, Transact, LiveHeld;
    PlainTables(db, r, now);
    SlotsKept(db, Transact(db, r, now).Else(db), None, now);
  }

  /** The settings a request saw name the logo in the database. */
  predicate LogoSeen(db: Db, r: Pending)
    requires r.Request?
  {
    r.intent.SaveSettings? && r.seen.SeenLogo? ==> r.seen.logo == db.logo
  }

  /** A swap of the logo marks the one in the database, if there is one. */
  predicate KeepsLogo(db: Db, r: Pending)
    requires r.Request?
  {
    r.intent.SaveSettings? && r.seen.SeenLogo? && r.upload.Some? && db.logo.Some? ==> r.seen.logo == db.logo
  }

  lemma TransactHeld(db: Db, r: Pending, now: Moment)
    requires r.Request? && Tidy(db) && LiveHeld(db) && NewFile(db, UploadIn(r)) && SeenFits(db, r) && KeepsLogo(db, r)
    requires (r.intent.AddVersion? ==> r.intent.id !in db.versions) && (r.intent.AddInvoice? ==> r.intent.id !in db.invoices)
    ensures LiveHeld(Transact(db, r, now).Else(db))
  {
    hide LiveHeld, Tidy, DeleteProject, DeleteDeliverable, DeleteDraft, CreateVersion, CreateInvoice, EditInvoice, SaveLogo, MoveVersion, Decide,
         SetInvoiceStatus, FileIn;
    var up := UploadIn(r);
    if Fileless(r.intent) {
      PlainHeld(db, r, now);
    } else {
      match r.intent
      case DropProject(p, _) => DeleteProjectHeld(db, p, now);
      case DropDeliverable(d) => DeleteDeliverableHeld(db, d, now);
      case AddVersion(d, reasonOk, id, file) => CreateVersionHeld(db, d, id, up, reasonOk, now);
      case Share(v) => if r.seen.SeenVersion? { MovesHeld(db, v, r.seen.state, Shared, v); }
      case Withdraw(v) => if r.seen.SeenVersion? { MovesHeld(db, v, r.seen.state, Withdrawn, v); }
      case DropVersion(v) => if r.seen.SeenVersion? { DeleteDraftHeld(db, v, r.seen.file, now); }
      case Answer(v, to, id) => DecideHeld(db, v, to, id);
      case AddInvoice(p, id, file) => CreateInvoiceHeld(db, p, id, up, now);
      case ChangeInvoice(i, file) => EditInvoiceHeld(db, i, up, now);
      case MoveInvoice(i, to) => InvoiceStatusHeld(db, i, to);
      case SaveSettings(file) => if r.seen.SeenLogo? { SaveLogoHeld(db, up, r.seen.logo, now); }
    }
  }

  // ---- the exact condition ----

  /**
   * Swapping the logo leaves every live file held exactly when the cached logo was the database's, or
   * there was no logo yet.
   */
  lemma SwapExact(db: Db, up: Schema.Upload, was: Option<Id>, now: Instant)
    requires Tidy(db) && LiveHeld(db) && NewFile(db, Some(up))
    requires was.Some? ==> was.value != up.id && forall x: Slot | x != LogoFile :: FileIn(db, x) != was
    ensures LiveHeld(SaveLogo(db, Some(up), was, now).Else(db)) <==> db.logo.None? || was == db.logo
  {
    hide Tidy, LiveHeld;
    if db.logo.None? || was == db.logo {
      SaveLogoHeld(db, Some(up), was, now);
    } else {
      Leaks(db, up, was, now);
    }
  }

  /** The file that stays live although nothing holds it any more. */
  lemma Leaks(db: Db, up: Schema.Upload, was: Option<Id>, now: Instant)
    requires Tidy(db) && NewFile(db, Some(up)) && db.logo.Some? && was != db.logo
    ensures
      var db' := SaveLogo(db, Some(up), was, now).Else(db);
      Live(db', db.logo.value) && !Held(db', db.logo.value) && !LiveHeld(db')
  {
    hide Tidy, FileIn, Held;
    var f, db' := db.logo.value, SaveLogo(db, Some(up), was, now).Else(db);
    LogoHolds(db);
    HolderIs(db, LogoFile);
    assert Live(db', f);
    SaveLogoSlots(db, up, was, now);
    NotHeld(db', f);
  }

  lemma LogoHolds(db: Db)
    ensures FileIn(db, LogoFile) == db.logo
  {
  }

  lemma NotHeld(db: Db, f: Id)
    requires forall s: Slot :: FileIn(db, s) != Some(f)
    ensures !Held(db, f)
  {
    hide FileIn;
  }

  lemma SaveLogoSlots(db: Db, up: Schema.Upload, was: Option<Id>, now: Instant)
    ensures
      var db' := SaveLogo(db, Some(up), was, now).Else(db);
      FileIn(db', LogoFile) == Some(up.id) && forall s: Slot | s != LogoFile :: FileIn(db', s) == FileIn(db, s)
  {
  }

  // ---- one save at a time ----

  predicate Saving(p: Pending) { p.Reloading? || p.Storing? || (p.Request? && p.intent.SaveSettings?) }

  /** A save starts when none is under way, and is not cut off between its commit and the cache. */
  ghost predicate Orderly(w: World, s: Step) {
    && (s.Read? && s.intent.SaveSettings? ==> forall t | t in w.pending :: !Saving(w.pending[t]))
    && (s.Drop? && s.ticket in w.pending ==> !w.pending[s.ticket].Reloading? && !w.pending[s.ticket].Storing?)
  }

  ghost predicate OrderlyRun(w: World, steps: seq<Step>)
    decreases |steps|
  {
    steps == [] || (Orderly(w, steps[0]) && OrderlyRun(Do(w, steps[0]), steps[1..]))
  }

  ghost predicate CacheOk(w: World) {
    && (forall t, u | t in w.pending && u in w.pending && Saving(w.pending[t]) && Saving(w.pending[u]) :: t == u)
    && (w.cached == w.db.logo || exists t :: t in w.pending && (w.pending[t].Reloading? || w.pending[t].Storing?))
    && (forall t | t in w.pending && w.pending[t].Storing? :: w.pending[t].logo == w.db.logo)
    && (forall t | t in w.pending && w.pending[t].Request? :: LogoSeen(w.db, w.pending[t]))
  }

  lemma LogoStays(db: Db, r: Pending, now: Moment)
    requires r.Request? && !r.intent.SaveSettings?
    ensures Transact(db, r, now).Else(db).logo == db.logo
  {
    hide DeleteProject, DeleteDeliverable, DeleteDraft, CreateVersion, CreateInvoice, EditInvoice, SaveLogo, MoveVersion, Decide,
         SetInvoiceStatus, Waive, SignOff, CreateProject, CreateDeliverable, SetClosed, EditDeliverable, UploadOf;
    var db' := Transact(db, r, now).Else(db);
    if Fileless(r.intent) {
      PlainTables(db, r, now);
    } else {
      match r.intent
      case DropProject(p, _) => if DeleteProject(db, p, now).Committed? { DeleteProjectDoes(db, p, now); }
      case DropDeliverable(d) => if DeleteDeliverable(db, d, now).Committed? { DeleteDeliverableDoes(db, d, now); }
      case AddVersion(d, reasonOk, id, file) => CreateVersionLogo(db, d, id, UploadOf(file, r.upload), reasonOk);
      case Share(v) => if r.seen.SeenVersion? { VersionsLogo(db, v, r.seen.state, Shared, 0); }
      case Withdraw(v) => if r.seen.SeenVersion? { VersionsLogo(db, v, r.seen.state, Withdrawn, 0); }
      case DropVersion(v) => if r.seen.SeenVersion? { DeleteDraftLogo(db, v, r.seen.file, now); }
      case Answer(v, to, id) => VersionsLogo(db, v, Shared, to, id);
      case AddInvoice(p, id, file) => CreateInvoiceLogo(db, p, id, UploadOf(file, r.upload));
      case ChangeInvoice(i, file) => EditInvoiceLogo(db, i, UploadOf(file, r.upload), now);
      case MoveInvoice(i, to) => InvoiceStatusLogo(db, i, to);
    }
  }

  lemma CreateVersionLogo(db: Db, d: Id, id: Id, up: Option<Schema.Upload>, reasonOk: bool)
    ensures CreateVersion(db, d, id, up, reasonOk).Else(db).logo == db.logo
  {
    hide NewestOf;
  }

  lemma VersionsLogo(db: Db, v: Id, from: VersionState, to: VersionState, id: Id)
    ensures MoveVersion(db, v, from, to).Else(db).logo == db.logo && Decide(db, v, to, id).Else(db).logo == db.logo
  {
  }

  lemma DeleteDraftLogo(db: Db, v: Id, file: Option<Id>, now: Moment)
    ensures DeleteDraft(db, v, file, now).Else(db).logo == db.logo
  {
    hide HasDecision;
  }

  lemma CreateInvoiceLogo(db: Db, p: Id, id: Id, up: Option<Schema.Upload>)
    ensures CreateInvoice(db, p, id, up).Else(db).logo == db.logo
  {
  }

  lemma EditInvoiceLogo(db: Db, i: Id, up: Option<Schema.Upload>, now: Moment)
    ensures EditInvoice(db, i, up, now).Else(db).logo == db.logo
  {
    hide InsertFile, MarkDeleted;
    if EditInvoice(db, i, up, now).Committed? && up.Some? {
      EditInvoiceDoes(db, i, up, now);
    }
  }

  lemma InvoiceStatusLogo(db: Db, i: Id, to: InvoiceStatus)
    ensures SetInvoiceStatus(db, i, to).Else(db).logo == db.logo
  {
  }

  lemma CacheCommit(w: World, t: nat)
    requires CacheOk(w) && t in w.pending && w.pending[t].Request?
    ensures CacheOk(DoCommit(w, t))
  {
    hide Transact, NoticeOf;
    var r, v := w.pending[t], DoCommit(w, t);
    if !r.intent.SaveSettings? {
      LogoStays(w.db, r, w.clock);
      if w.cached != w.db.logo {
        var u :| u in w.pending && (w.pending[u].Reloading? || w.pending[u].Storing?);
        assert u in v.pending && v.pending[u] == w.pending[u];
      }
    } else {
      assert forall u | u in w.pending && u != t :: !Saving(w.pending[u]);
      if Transact(w.db, r, w.clock).Committed? {
        assert v.pending[t].Reloading?;
      }
    }
  }

  lemma CacheRead(w: World, t: nat, intent: Intent)
    requires CacheOk(w) && Orderly(w, Read(t, intent))
    ensures CacheOk(Do(w, Read(t, intent)))
  {
    hide Do, NewIds;
    var v := Do(w, Read(t, intent));
    ReadIs(w, t, intent);
    if v != w {
      SeeLogo(w, intent);
      assert t in w.pending ==> !Saving(w.pending[t]);
      if w.cached != w.db.logo {
        var u :| u in w.pending && (w.pending[u].Reloading? || w.pending[u].Storing?);
        assert u in v.pending && v.pending[u] == w.pending[u];
      }
    }
  }

  lemma SeeLogo(w: World, intent: Intent)
    ensures intent.SaveSettings? && See(w, intent).Some? ==> See(w, intent).value == SeenLogo(w.cached)
  {
    hide Lists, RowsOf, AllSatisfied;
  }

  lemma CacheDo(w: World, s: Step)
    requires CacheOk(w) && Orderly(w, s)
    ensures CacheOk(Do(w, s))
  {
    hide DoRead, DoCommit, Due, Held, LogoSeen;
    var v := Do(w, s);
    match s
    case Commit(t) => if t in w.pending && w.pending[t].Request? { CacheCommit(w, t); }
    case Read(t, intent) => CacheRead(w, t, intent);
    case Restart =>
    case PurgeRow(t) => CachePurge(w, t);
    case _ => CacheOther(w, s);
  }

  lemma CachePurge(w: World, t: nat)
    requires CacheOk(w)
    ensures CacheOk(Do(w, PurgeRow(t)))
  {
    hide Held;
    var v := Do(w, PurgeRow(t));
    assert v.pending == w.pending && v.cached == w.cached && v.db.logo == w.db.logo;
    if w.cached != w.db.logo {
      var u :| u in w.pending && (w.pending[u].Reloading? || w.pending[u].Storing?);
      assert u in v.pending;
    }
  }

  lemma CacheReload(w: World, t: nat)
    requires CacheOk(w) && t in w.pending && w.pending[t].Reloading?
    ensures CacheOk(w.(pending := w.pending[t := Storing(w.db.logo)]))
  {
    hide LogoSeen;
    var v := w.(pending := w.pending[t := Storing(w.db.logo)]);
    assert t in v.pending && v.pending[t].Storing?;
  }

  lemma CacheStore(w: World, t: nat)
    requires CacheOk(w) && t in w.pending && w.pending[t].Storing?
    ensures CacheOk(w.(cached := w.pending[t].logo, pending := w.pending - {t}))
  {
    hide LogoSeen;
  }

  /** No save starts, moves on or is cut off. */
  lemma CacheSame(w: World, v: World)
    requires CacheOk(w) && v.cached == w.cached && v.db.logo == w.db.logo
    requires forall t | t in v.pending && Saving(v.pending[t]) :: t in w.pending && v.pending[t] == w.pending[t]
    requires forall t | t in v.pending && v.pending[t].Request? :: t in w.pending && v.pending[t] == w.pending[t]
    requires forall t | t in w.pending && (w.pending[t].Reloading? || w.pending[t].Storing?) :: t in v.pending && v.pending[t] == w.pending[t]
    ensures CacheOk(v)
  {
    if w.cached != w.db.logo {
      var u :| u in w.pending && (w.pending[u].Reloading? || w.pending[u].Storing?);
      assert u in v.pending && v.pending[u] == w.pending[u];
    }
  }

  lemma CacheOther(w: World, s: Step)
    requires CacheOk(w) && Orderly(w, s) && !s.Read? && !s.Restart? && !s.PurgeRow?
    requires s.Commit? ==> !(s.ticket in w.pending && w.pending[s.ticket].Request?)
    ensures CacheOk(Do(w, s))
  {
    hide Due, CacheOk;
    match s
    case Reload(t) => if t in w.pending && w.pending[t].Reloading? { CacheReload(w, t); }
    case Store(t) => if t in w.pending && w.pending[t].Storing? { CacheStore(w, t); }
    case _ => CacheSame(w, Do(w, s));
  }

  // ---- over any orderly run ----

  ghost predicate ExactOk(w: World) { Reachable(w) && FilesOk(w) && CacheOk(w) && LiveHeld(w.db) }

  lemma HeldCommit(w: World, t: nat)
    requires ExactOk(w) && t in w.pending && w.pending[t].Request?
    ensures LiveHeld(DoCommit(w, t).db)
  {
    hide Sound, RowsOk, TicketsOk, PurgersOk, MemoryOk, Tidy, LiveHeld, Transact, SeenFits, NoticeOf;
    var r := w.pending[t];
    FilesReady(w, t);
    assert Fresh(w, t);
    NewRows(w, t);
    TransactHeld(w.db, r, w.clock);
  }

  lemma NewRows(w: World, t: nat)
    requires Distinct(w) && t in w.pending && w.pending[t].Request?
    ensures w.pending[t].intent.AddVersion? ==> w.pending[t].intent.id !in w.db.versions
    ensures w.pending[t].intent.AddInvoice? ==> w.pending[t].intent.id !in w.db.invoices
  {
    assert Fresh(w, t);
  }

  lemma HeldPurge(w: World, t: nat)
    requires FilesOk(w) && LiveHeld(w.db)
    ensures LiveHeld(Do(w, PurgeRow(t)).db)
  {
    hide FilesOk, LiveHeld;
    var v := Do(w, PurgeRow(t));
    if v.db != w.db {
      RowsGo(w.db, v.db);
    }
  }

  lemma RowsGo(db: Db, db': Db)
    requires LiveHeld(db) && db' == db.(files := db'.files)
    requires forall f | f in db'.files :: f in db.files && db'.files[f] == db.files[f]
    ensures LiveHeld(db')
  {
    assert forall s: Slot :: FileIn(db', s) == FileIn(db, s);
    forall f | Live(db', f)
      ensures Held(db', f)
    {
      StillHeld(db, db', f);
    }
  }

  lemma ExactDo(w: World, s: Step)
    requires ExactOk(w) && Orderly(w, s)
    ensures ExactOk(Do(w, s))
  {
    hide Reachable, FilesOk, CacheOk, LiveHeld, Orderly, DoRead, DoCommit, DoPurgeRow, Due;
    ReachableDo(w, s);
    FilesDo(w, s);
    CacheDo(w, s);
    if s.Commit? && s.ticket in w.pending && w.pending[s.ticket].Request? {
      HeldCommit(w, s.ticket);
    } else if s.PurgeRow? {
      HeldPurge(w, s.purger);
    } else {
      SameDb(w, s);
    }
  }

  lemma SameDb(w: World, s: Step)
    requires !(s.Commit? && s.ticket in w.pending && w.pending[s.ticket].Request?) && !s.PurgeRow?
    ensures Do(w, s).db == w.db
  {
    hide See, Due, NewIds;
  }

  lemma {:induction false} ExactRun(w: World, steps: seq<Step>)
    requires ExactOk(w) && OrderlyRun(w, steps)
    ensures ExactOk(Run(w, steps))
    decreases |steps|
  {
    hide ExactOk, Do, Orderly;
    if steps != [] {
      ExactDo(w, steps[0]);
      ExactRun(Do(w, steps[0]), steps[1..]);
    }
  }

  lemma StartExact(clock: Moment)
    ensures ExactOk(Start(clock))
  {
    hide Reachable, FilesOk;
    StartReachable(clock);
    StartFiles(clock);
  }

  /** While settings are saved one at a time, a file is not deleted exactly when some row holds it. */
  lemma LiveExactlyWhenHeld(clock: Moment, steps: seq<Step>, f: Id)
    ensures
      var db := Run(Start(clock), steps).db;
      OrderlyRun(Start(clock), steps) && f in db.files ==> (db.files[f].deletedAt.None? <==> Held(db, f))
  {
    hide Run, Reachable, CacheOk, OrderlyRun, RowsOk, TicketsOk, PurgersOk, MemoryOk, FileIn;
    if OrderlyRun(Start(clock), steps) {
      StartExact(clock);
      ExactRun(Start(clock), steps);
    }
  }

  // ---- exactly, over any run ----

  /** The step commits a new logo over one that the request did not see. */
  predicate LosesLogo(w: World, s: Step) {
    s.Commit? && s.ticket in w.pending && w.pending[s.ticket].Request? && !KeepsLogo(w.db, w.pending[s.ticket])
  }

  lemma HeldExactly(w: World, s: Step)
    requires Reachable(w) && FilesOk(w) && LiveHeld(w.db)
    ensures LiveHeld(Do(w, s).db) <==> !LosesLogo(w, s)
  {
    hide Reachable, FilesOk, LiveHeld, DoRead, DoCommit, DoPurgeRow, Due, Transact;
    if s.Commit? && s.ticket in w.pending && w.pending[s.ticket].Request? {
      Closing.CommitDb(w, s.ticket);
      CommitHeldExactly(w, s.ticket);
    } else if s.PurgeRow? {
      HeldPurge(w, s.purger);
    } else {
      SameDb(w, s);
    }
  }

  lemma CommitHeldExactly(w: World, t: nat)
    requires Reachable(w) && FilesOk(w) && LiveHeld(w.db) && t in w.pending && w.pending[t].Request?
    ensures LiveHeld(Transact(w.db, w.pending[t], w.clock).Else(w.db)) <==> KeepsLogo(w.db, w.pending[t])
  {
    hide Sound, RowsOk, TicketsOk, PurgersOk, MemoryOk, Tidy, LiveHeld, SeenFits, Transact;
    var r := w.pending[t];
    FilesReady(w, t);
    assert Fresh(w, t);
    NewRows(w, t);
    if KeepsLogo(w.db, r) {
      TransactHeld(w.db, r, w.clock);
    } else {
      SwapIs(w.db, r, w.clock);
      Leaks(w.db, Schema.Upload(r.intent.file, r.upload.value), r.seen.logo, w.clock);
    }
  }

  lemma SwapIs(db: Db, r: Pending, now: Moment)
    requires r.Request? && !KeepsLogo(db, r)
    ensures Transact(db, r, now) == SaveLogo(db, Some(Schema.Upload(r.intent.file, r.upload.value)), r.seen.logo, now)
    ensures UploadIn(r) == Some(Schema.Upload(r.intent.file, r.upload.value))
  {
  }

  ghost predicate AlwaysHeld(w: World, steps: seq<Step>)
    decreases |steps|
  {
    LiveHeld(w.db) && (steps == [] || AlwaysHeld(Do(w, steps[0]), steps[1..]))
  }

  ghost predicate NeverLoses(w: World, steps: seq<Step>)
    decreases |steps|
  {
    steps == [] || (!LosesLogo(w, steps[0]) && NeverLoses(Do(w, steps[0]), steps[1..]))
  }

  lemma {:induction false} AlwaysHeldExactly(w: World, steps: seq<Step>)
    requires Reachable(w) && FilesOk(w) && LiveHeld(w.db)
    ensures AlwaysHeld(w, steps) <==> NeverLoses(w, steps)
    decreases |steps|
  {
    hide Reachable, FilesOk, Do, LiveHeld, LosesLogo;
    if steps != [] {
      HeldExactly(w, steps[0]);
      if !LosesLogo(w, steps[0]) {
        ReachableDo(w, steps[0]);
        FilesDo(w, steps[0]);
        AlwaysHeldExactly(Do(w, steps[0]), steps[1..]);
      }
    }
  }

  /**
   * Over any run, every live file is held in every state on the way exactly when no settings save replaced a
   * logo other than the one it had seen.
   */
  lemma HeldThroughoutExactly(clock: Moment, steps: seq<Step>)
    ensures AlwaysHeld(Start(clock), steps) <==> NeverLoses(Start(clock), steps)
  {
    hide Reachable, FilesOk, Do, AlwaysHeld, NeverLoses;
    StartReachable(clock);
    StartFiles(clock);
    AlwaysHeldExactly(Start(clock), steps);
  }

  // ---- two saves at once ----

  /**
   * Two saves with new logos that both read before either commits: the first one's logo stays live
   * with nothing holding it, in every reachable state where two such saves can start.
   */
  lemma OverlappingSavesLeak(w: World, a: nat, b: nat, f: Id, g: Id)
    requires Reachable(w) && FilesOk(w)
    requires a in w.pending && w.pending[a].Uploaded? && b in w.pending && w.pending[b].Uploaded? && a != b
    requires f !in w.usedIds && g !in w.usedIds && f != g
    ensures
      var db := Run(w, [Read(a, SaveSettings(f)), Read(b, SaveSettings(g)), Commit(a), Commit(b)]).db;
      Live(db, f) && !Held(db, f) && db.logo == Some(g)
  {
    hide Reachable, FilesOk, Do, Held, Transact;
    var s0, s1, s2, s3 := Read(a, SaveSettings(f)), Read(b, SaveSettings(g)), Commit(a), Commit(b);
    ReadSave(w, a, f);
    var w1 := Do(w, s0);
    ReadSave(w1, b, g);
    var w2 := Do(w1, s1);
    assert w2.pending[a] == w1.pending[a];
    CommitSave(w2, a, f);
    var w3 := Do(w2, s2);
    assert w3.pending[b] == w2.pending[b];
    CommitSave(w3, b, g);
    var w4 := Do(w3, s3);
    ReachFour(w, s0, s1, s2, s3);
    assert Tidy(w3.db) by { TidyOf(w3); }
    assert NewFile(w3.db, Some(Schema.Upload(g, w.pending[b].key))) && w3.db.logo == Some(f) && w.cached != Some(f) by {
      NeverSeen(w, f, g);
    }
    Leaks(w3.db, Schema.Upload(g, w.pending[b].key), w.cached, w.clock);
    Closing.RunFour(w, s0, s1, s2, s3);
  }

  /** And it happens in a run from the start: the first logo's file 0 stays, live and unheld. */
  lemma LogoLeaks(clock: Moment)
    ensures
      var steps := [Step.Upload(0, KEY_A), Step.Upload(1, KEY_B)]
        + [Read(0, SaveSettings(0)), Read(1, SaveSettings(1)), Commit(0), Commit(1)];
      var db := Run(Start(clock), steps).db;
      Live(db, 0) && !Held(db, 0) && db.logo == Some(1)
  {
    hide Reachable, FilesOk, Do, Held, Live, ValidKey;
    var s1 := [Step.Upload(0, KEY_A), Step.Upload(1, KEY_B)];
    var s2 := [Read(0, SaveSettings(0)), Read(1, SaveSettings(1)), Commit(0), Commit(1)];
    var w0 := Start(clock);
    RunAppend(w0, s1, s2);
    Closing.RunTwo(w0, s1[0], s1[1]);
    TwoUploads(w0);
    var w := Do(Do(w0, s1[0]), s1[1]);
    StartReachable(clock);
    StartFiles(clock);
    FilesRun(w0, s1);
    OverlappingSavesLeak(w, 0, 1, 0, 1);
  }

  lemma ReachFour(w: World, s0: Step, s1: Step, s2: Step, s3: Step)
    requires Reachable(w) && FilesOk(w)
    ensures FilesOk(Do(Do(Do(w, s0), s1), s2))
  {
    hide Reachable, FilesOk, Do;
    ReachableDo(w, s0);
    FilesDo(w, s0);
    ReachableDo(Do(w, s0), s1);
    FilesDo(Do(w, s0), s1);
    FilesDo(Do(Do(w, s0), s1), s2);
  }

  lemma NeverSeen(w: World, f: Id, g: Id)
    requires Reachable(w) && FilesOk(w) && f !in w.usedIds && g !in w.usedIds
    ensures w.cached != Some(f) && g !in w.db.files
  {
    hide Sound, Tidy, RowsOk, TicketsOk, PurgersOk;
  }

  lemma ReadSave(w: World, t: nat, f: Id)
    requires t in w.pending && w.pending[t].Uploaded? && f !in w.usedIds
    ensures
      Do(w, Read(t, SaveSettings(f))) ==
        w.(pending := w.pending[t := Request(SaveSettings(f), Some(w.pending[t].key), SeenLogo(w.cached))], usedIds := w.usedIds + {f})
  {
  }

  lemma CommitSave(w: World, t: nat, f: Id)
    requires t in w.pending && w.pending[t].Request? && w.pending[t].intent == SaveSettings(f)
    requires w.pending[t].upload.Some? && w.pending[t].seen.SeenLogo?
    ensures
      var v := Do(w, Commit(t));
      && v.db == SaveLogo(w.db, Some(Schema.Upload(f, w.pending[t].upload.value)), w.pending[t].seen.logo, w.clock).Else(w.db)
      && v.db.logo == Some(f) && v.db.files.Keys == w.db.files.Keys + {f}
      && v.pending == w.pending[t := Reloading] && v.clock == w.clock && v.cached == w.cached
  {
  }
}
