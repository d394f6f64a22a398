/**
 * Files never dangle (internal/web/deliverables.go, invoices.go, settings.go, cmd/briefrelay/main.go):
 * blobs and rows are written in separate steps, requests interleave, and a restart can fall between
 * any two steps, yet a file that some row holds always has its own live row and its blob on disk.
 */
module FileLife {
  import opened Basics
  import opened Timestamps
  import opened JobTable
  import opened Domain
  import opened Schema
  import opened Requests
  import opened Identity
  import opened Approval
  import opened Progress
  import opened FileTables

  // ---- the invariant ----

  /** The blob a ticket is responsible for. */
  function KeyOf(p: Pending): Option<Key> {
    match p
    case Uploaded(k) => Some(k)
    case Request(_, k, _) => k
    case Abandoned(k) => Some(k)
    case _ => None
  }

  predicate Draws(p: Pending, f: Id) { p.Request? && f in NewIds(p.intent) }

  /** No request will insert a row under f. */
  ghost predicate Settled(w: World, f: Id) {
    f in w.usedIds && forall t | t in w.pending :: !Draws(w.pending[t], f)
  }

  ghost predicate NoRowHas(db: Db, k: Key) { forall f | f in db.files :: db.files[f].key != k }

  /** Every row has its own key, and every live row its blob. */
  ghost predicate RowsOk(w: World) {
    && (forall f | f in w.db.files :: w.db.files[f].key in w.usedKeys && (Live(w.db, f) ==> w.db.files[f].key in w.blobs))
    && (forall f, g | f in w.db.files && g in w.db.files && w.db.files[f].key == w.db.files[g].key :: f == g)
  }

  ghost predicate TicketOk(w: World, t: nat)
    requires t in w.pending
  {
    var k := KeyOf(w.pending[t]);
    k.Some? ==> k.value in w.usedKeys && NoRowHas(w.db, k.value) && (!w.pending[t].Abandoned? ==> k.value in w.blobs)
  }

  /** Every ticket has its own blob, which no row names yet. */
  ghost predicate TicketsOk(w: World) {
    && (forall t | t in w.pending :: TicketOk(w, t))
    && (forall t, u | t in w.pending && u in w.pending && KeyOf(w.pending[t]).Some? && KeyOf(w.pending[t]) == KeyOf(w.pending[u]) :: t == u)
  }

  /** A row chosen for the purge: deleted or gone, and its key is nobody else's. */
  ghost predicate Doomed(w: World, x: (Id, Key)) {
    && x.1 in w.usedKeys && Settled(w, x.0)
    && (x.0 in w.db.files ==> w.db.files[x.0].key == x.1 && !Live(w.db, x.0))
    && (forall f | f in w.db.files && w.db.files[f].key == x.1 :: f == x.0)
    && (forall t | t in w.pending :: KeyOf(w.pending[t]) != Some(x.1))
  }

  ghost predicate PurgersOk(w: World) { forall t | t in w.purgers :: forall x | x in w.purgers[t].doomed :: Doomed(w, x) }

  /** A file that only ever was a logo. */
  ghost predicate LogoOnly(w: World, f: Id) {
    Settled(w, f) && forall s: Slot | s != LogoFile :: FileIn(w.db, s) != Some(f)
  }

  ghost predicate Remembers(w: World, p: Pending) {
    match p
    case Storing(logo) => logo.Some? ==> LogoOnly(w, logo.value)
    case Request(intent, _, seen) =>
      && (intent.SaveSettings? && seen.SeenLogo? && seen.logo.Some? ==> LogoOnly(w, seen.logo.value))
      && (intent.DropVersion? && seen.SeenVersion? ==>
            Settled(w, intent.version) && (intent.version in w.db.versions ==> w.db.versions[intent.version].file == seen.file))
    case _ => true
  }

  /** What the cache and the requests remember about files is still right. */
  ghost predicate MemoryOk(w: World) {
    && (w.cached.Some? ==> LogoOnly(w, w.cached.value))
    && forall t | t in w.pending :: Remembers(w, w.pending[t])
  }

  ghost predicate FilesOk(w: World) { Tidy(w.db) && RowsOk(w) && TicketsOk(w) && PurgersOk(w) && MemoryOk(w) }

  // ---- commits ----

  lemma IsSettled(w: World, f: Id)
    requires Distinct(w) && (f in w.db.files || f in w.db.versions)
    ensures Settled(w, f)
  {
    hide NewIds;
    forall t | t in w.pending
      ensures !Draws(w.pending[t], f)
    {
      if w.pending[t].Request? {
        assert Fresh(w, t);
      }
    }
  }

  /** The premises of TransactFiles hold for every pending request. */
  lemma FilesReady(w: World, t: nat)
    requires Distinct(w) && FilesOk(w) && t in w.pending && w.pending[t].Request?
    ensures NewFile(w.db, UploadIn(w.pending[t])) && SeenFits(w.db, w.pending[t])
  {
    hide Tidy, RowsOk, TicketsOk, PurgersOk;
    var r := w.pending[t];
    assert Fresh(w, t) && Remembers(w, r);
    if TakesUpload(r.intent) {
      assert r.intent.file in NewIds(r.intent);
      assert Draws(r, r.intent.file);
    }
  }

  /** What the file side of a commit amounts to; the rest of the proof uses only this. */
  ghost predicate FileCommit(w: World, v: World, t: nat, up: Option<Schema.Upload>)
    requires t in w.pending
  {
    && FileStep(w.db, v.db, up, w.clock)
    && (up.Some? ==> KeyOf(w.pending[t]) == Some(up.value.key) && Draws(w.pending[t], up.value.id) && !w.pending[t].Abandoned?)
    && v.blobs == w.blobs && v.usedKeys == w.usedKeys && v.usedIds == w.usedIds && v.purgers == w.purgers && v.cached == w.cached
    && (forall u | u in v.pending :: u in w.pending && (u == t || v.pending[u] == w.pending[u]))
    && (t in v.pending ==> v.pending[t] == Reloading)
    && (forall x | x in v.db.versions && !Draws(w.pending[t], x) :: x in w.db.versions && v.db.versions[x].file == w.db.versions[x].file)
  }

  lemma CommitIs(w: World, t: nat)
    requires Reachable(w) && FilesOk(w) && t in w.pending && w.pending[t].Request?
    requires Transact(w.db, w.pending[t], w.clock).Committed?
    ensures FileCommit(w, DoCommit(w, t), t, UploadIn(w.pending[t]))
  {
    hide Sound, FilesOk, Transact, FileStep, SeenFits, NewFile, NoticeOf, Forward;
    var r := w.pending[t];
    FilesReady(w, t);
    assert Tidy(w.db) by { TidyOf(w); }
    TransactFiles(w.db, r, w.clock);
    TransactForward(w, t);
    FilesFixed(w.db, DoCommit(w, t).db, NewIds(r.intent));
  }

  lemma TidyOf(w: World)
    requires FilesOk(w)
    ensures Tidy(w.db)
  {
  }

  lemma FilesFixed(db: Db, db': Db, drawn: set<Id>)
    requires Forward(db, db', drawn)
    ensures forall v | v in db'.versions && v !in drawn :: v in db.versions && db'.versions[v].file == db.versions[v].file
  {
  }

  lemma CommitRows(w: World, v: World, t: nat, up: Option<Schema.Upload>)
    requires RowsOk(w) && TicketsOk(w) && t in w.pending && FileCommit(w, v, t, up)
    ensures RowsOk(v)
  {
    hide Tidy, SlotsStep, Draws;
    assert TicketOk(w, t);
  }

  lemma CommitTickets(w: World, v: World, t: nat, up: Option<Schema.Upload>)
    requires TicketsOk(w) && t in w.pending && FileCommit(w, v, t, up)
    ensures TicketsOk(v)
  {
    hide Tidy, SlotsStep, Draws;
    forall u | u in v.pending
      ensures TicketOk(v, u)
    {
      assert TicketOk(w, u);
    }
  }

  lemma CommitSettled(w: World, v: World, t: nat, up: Option<Schema.Upload>, f: Id)
    requires Settled(w, f) && t in w.pending && FileCommit(w, v, t, up)
    ensures Settled(v, f) && !IsUpload(up, f)
  {
    hide FileStep;
  }

  lemma CommitDoomed(w: World, v: World, t: nat, up: Option<Schema.Upload>, x: (Id, Key))
    requires Doomed(w, x) && t in w.pending && FileCommit(w, v, t, up)
    ensures Doomed(v, x)
  {
    hide Tidy, SlotsStep, Settled, Draws;
    CommitSettled(w, v, t, up, x.0);
  }

  lemma CommitLogoOnly(w: World, v: World, t: nat, up: Option<Schema.Upload>, f: Id)
    requires LogoOnly(w, f) && t in w.pending && FileCommit(w, v, t, up)
    ensures LogoOnly(v, f)
  {
    hide Tidy, RowsStep, Settled, FileIn, Draws;
    CommitSettled(w, v, t, up, f);
  }

  lemma CommitMemory(w: World, v: World, t: nat, up: Option<Schema.Upload>)
    requires MemoryOk(w) && t in w.pending && FileCommit(w, v, t, up)
    ensures MemoryOk(v)
  {
    hide FileStep, Settled, LogoOnly;
    if w.cached.Some? {
      CommitLogoOnly(w, v, t, up, w.cached.value);
    }
    forall u | u in v.pending
      ensures Remembers(v, v.pending[u])
    {
      CommitRemembers(w, v, t, up, u);
    }
  }

  lemma CommitRemembers(w: World, v: World, t: nat, up: Option<Schema.Upload>, u: nat)
    requires MemoryOk(w) && t in w.pending && FileCommit(w, v, t, up) && u in v.pending
    ensures Remembers(v, v.pending[u])
  {
    hide FileStep, LogoOnly;
    if u != t {
      var p := w.pending[u];
      assert Remembers(w, p);
      match p
      case Storing(logo) =>
        if logo.Some? {
          CommitLogoOnly(w, v, t, up, logo.value);
        }
      case Request(intent, _, seen) =>
        if intent.SaveSettings? && seen.SeenLogo? && seen.logo.Some? {
          CommitLogoOnly(w, v, t, up, seen.logo.value);
        }
        if intent.DropVersion? && seen.SeenVersion? {
          CommitSettled(w, v, t, up, intent.version);
        }
      case _ =>
    }
  }

  lemma FilesCommit(w: World, t: nat)
    requires Reachable(w) && FilesOk(w) && t in w.pending && w.pending[t].Request?
    ensures FilesOk(Do(w, Commit(t)))
  {
    hide Reachable, Transact, RowsOk, TicketsOk, MemoryOk, Doomed, FileCommit, Tidy, NoticeOf, UploadIn, DoCommit;
    var v := DoCommit(w, t);
    assert v == Do(w, Commit(t));
    if Transact(w.db, w.pending[t], w.clock).Committed? {
      var up := UploadIn(w.pending[t]);
      CommitIs(w, t);
      CommitRows(w, v, t, up);
      CommitTickets(w, v, t, up);
      CommitMemory(w, v, t, up);
      PurgersSame(w, v, t, up);
      forall u, x | u in v.purgers && x in v.purgers[u].doomed
        ensures Doomed(v, x)
      {
        CommitDoomed(w, v, t, up, x);
      }
    } else {
      RollbackIs(w, t);
      TicketsOnly(w, v);
    }
  }

  lemma PurgersSame(w: World, v: World, t: nat, up: Option<Schema.Upload>)
    requires t in w.pending && FileCommit(w, v, t, up)
    ensures v.purgers == w.purgers && Tidy(v.db)
  {
  }

  /** Tickets are dropped, or abandoned with the blob they had; nothing else changes. */
  ghost predicate FewerTickets(w: World, v: World) {
    && v == w.(pending := v.pending, notices := v.notices)
    && forall t | t in v.pending :: t in w.pending
         && (v.pending[t] == w.pending[t] || (v.pending[t].Abandoned? && KeyOf(w.pending[t]) == KeyOf(v.pending[t])))
  }

  lemma RollbackIs(w: World, t: nat)
    requires t in w.pending && w.pending[t].Request? && Transact(w.db, w.pending[t], w.clock).RolledBack?
    ensures FewerTickets(w, DoCommit(w, t))
  {
    hide Transact, NoticeOf;
  }

  lemma SettledOnly(w: World, v: World, f: Id)
    requires FewerTickets(w, v) && Settled(w, f)
    ensures Settled(v, f)
  {
  }

  lemma TicketsOnly(w: World, v: World)
    requires FilesOk(w) && FewerTickets(w, v)
    ensures FilesOk(v)
  {
    hide Tidy, Settled, KeyOf, NoRowHas, FewerTickets, Doomed, LogoOnly, Live;
    FewerMeans(w, v);
    forall u | u in v.pending
      ensures TicketOk(v, u) && Remembers(v, v.pending[u])
    {
      assert TicketOk(w, u) && Remembers(w, w.pending[u]);
      FewerRemembers(w, v, u);
    }
    forall u, x | u in v.purgers && x in v.purgers[u].doomed
      ensures Doomed(v, x)
    {
      FewerDoomed(w, v, x);
    }
    if v.cached.Some? {
      FewerLogoOnly(w, v, v.cached.value);
    }
  }

  lemma FewerMeans(w: World, v: World)
    requires FewerTickets(w, v)
    ensures v.db == w.db && v.blobs == w.blobs && v.purgers == w.purgers && v.cached == w.cached && v.usedKeys == w.usedKeys
    ensures forall t | t in v.pending :: t in w.pending
    ensures forall t | t in v.pending :: KeyOf(v.pending[t]) == KeyOf(w.pending[t]) && (w.pending[t].Abandoned? ==> v.pending[t].Abandoned?)
  {
  }

  lemma FewerDoomed(w: World, v: World, x: (Id, Key))
    requires FewerTickets(w, v) && Doomed(w, x)
    ensures Doomed(v, x)
  {
    hide Settled, FewerTickets, KeyOf;
    SettledOnly(w, v, x.0);
    FewerMeans(w, v);
  }

  lemma FewerLogoOnly(w: World, v: World, f: Id)
    requires FewerTickets(w, v) && LogoOnly(w, f)
    ensures LogoOnly(v, f)
  {
    hide Settled, FileIn;
    SettledOnly(w, v, f);
  }

  lemma FewerRemembers(w: World, v: World, t: nat)
    requires FewerTickets(w, v) && t in v.pending && t in w.pending && Remembers(w, w.pending[t])
    ensures Remembers(v, v.pending[t])
  {
    hide Settled, LogoOnly;
    var p := v.pending[t];
    if p == w.pending[t] {
      match p
      case Storing(logo) =>
        if logo.Some? {
          FewerLogoOnly(w, v, logo.value);
        }
      case Request(intent, _, seen) =>
        if intent.SaveSettings? && seen.SeenLogo? && seen.logo.Some? {
          FewerLogoOnly(w, v, seen.logo.value);
        }
        if intent.DropVersion? && seen.SeenVersion? {
          SettledOnly(w, v, intent.version);
        }
      case _ =>
    }
  }

  // ---- the other steps ----

  /** A blob that no live row and no open ticket needs can go. */
  lemma BlobGone(w: World, k: Key)
    requires FilesOk(w)
    requires forall f | Live(w.db, f) :: w.db.files[f].key != k
    requires forall t | t in w.pending && KeyOf(w.pending[t]) == Some(k) :: w.pending[t].Abandoned?
    ensures FilesOk(w.(blobs := w.blobs - {k}))
  {
    hide Tidy, Settled, LogoOnly, NoRowHas;
    var v := w.(blobs := w.blobs - {k});
    forall u | u in v.pending
      ensures TicketOk(v, u) && Remembers(v, v.pending[u])
    {
      assert TicketOk(w, u);
      SameMemory(w, v, w.pending[u]);
    }
    forall u, x | u in v.purgers && x in v.purgers[u].doomed
      ensures Doomed(v, x)
    {
      assert Doomed(w, x);
      SameSettled(w, v, x.0);
    }
    if v.cached.Some? {
      SameLogoOnly(w, v, v.cached.value);
    }
  }

  /** Settled and LogoOnly speak of ids, tickets and holders alone. */
  lemma SameSettled(w: World, v: World, f: Id)
    requires w.usedIds <= v.usedIds && Settled(w, f)
    requires forall t | t in v.pending :: Draws(v.pending[t], f) ==> t in w.pending && Draws(w.pending[t], f)
    ensures Settled(v, f)
  {
  }

  lemma SameLogoOnly(w: World, v: World, f: Id)
    requires w.usedIds <= v.usedIds && LogoOnly(w, f) && v.db == w.db.(files := v.db.files)
    requires forall t | t in v.pending :: Draws(v.pending[t], f) ==> t in w.pending && Draws(w.pending[t], f)
    ensures LogoOnly(v, f)
  {
    hide Settled, Draws;
    SameSettled(w, v, f);
    assert forall s: Slot :: FileIn(v.db, s) == FileIn(w.db, s);
  }

  lemma SameMemory(w: World, v: World, p: Pending)
    requires w.usedIds <= v.usedIds && Remembers(w, p) && v.db == w.db.(files := v.db.files)
    requires forall f, t | t in v.pending && f in w.usedIds :: Draws(v.pending[t], f) ==> t in w.pending && Draws(w.pending[t], f)
    ensures Remembers(v, p)
  {
    hide Settled, LogoOnly, Draws;
    match p
    case Storing(logo) =>
      if logo.Some? {
        LogoUsed(w, logo.value);
        SameLogoOnly(w, v, logo.value);
      }
    case Request(intent, _, seen) =>
      if intent.SaveSettings? && seen.SeenLogo? && seen.logo.Some? {
        LogoUsed(w, seen.logo.value);
        SameLogoOnly(w, v, seen.logo.value);
      }
      if intent.DropVersion? && seen.SeenVersion? {
        SettledUsed(w, intent.version);
        SameSettled(w, v, intent.version);
      }
    case _ =>
  }

  lemma SettledUsed(w: World, f: Id)
    requires Settled(w, f)
    ensures f in w.usedIds
  {
  }

  lemma LogoUsed(w: World, f: Id)
    requires LogoOnly(w, f)
    ensures f in w.usedIds
  {
  }

  lemma FilesUpload(w: World, t: nat, key: Key)
    requires FilesOk(w)
    ensures FilesOk(Do(w, Step.Upload(t, key)))
  {
    hide Tidy, Settled, LogoOnly;
    var v := Do(w, Step.Upload(t, key));
    if v != w {
      forall u | u in v.pending
        ensures TicketOk(v, u) && Remembers(v, v.pending[u])
      {
        if u != t {
          assert TicketOk(w, u);
          SameMemory(w, v, w.pending[u]);
        }
      }
      forall u, x | u in v.purgers && x in v.purgers[u].doomed
        ensures Doomed(v, x)
      {
        assert Doomed(w, x);
        SameSettled(w, v, x.0);
      }
      if v.cached.Some? {
        LogoUsed(w, v.cached.value);
        SameLogoOnly(w, v, v.cached.value);
      }
    }
  }

  /** What a read that was let through did. */
  ghost predicate ReadStep(w: World, v: World, t: nat, intent: Intent) {
    && See(w, intent).Some? && NewIds(intent) !! w.usedIds
    && v.db == w.db && v.blobs == w.blobs && v.purgers == w.purgers && v.cached == w.cached && v.usedKeys == w.usedKeys
    && v.usedIds == w.usedIds + NewIds(intent)
    && t in v.pending && v.pending[t].Request? && v.pending[t].intent == intent && v.pending[t].seen == See(w, intent).value
    && v.pending == w.pending[t := v.pending[t]]
    && (if t in w.pending then w.pending[t].Uploaded? && KeyOf(v.pending[t]) == KeyOf(w.pending[t]) else KeyOf(v.pending[t]) == None)
  }

  lemma ReadIs(w: World, t: nat, intent: Intent)
    ensures Do(w, Read(t, intent)) == w || ReadStep(w, Do(w, Read(t, intent)), t, intent)
  {
    hide See, NewIds;
  }

  /** What is newly remembered was just read. */
  lemma ReadRemembers(w: World, v: World, t: nat, intent: Intent)
    requires Distinct(w) && Distinct(v) && FilesOk(w) && ReadStep(w, v, t, intent)
    ensures Remembers(v, v.pending[t])
  {
    hide Tidy, RowsOk, TicketsOk, PurgersOk, Settled, NewIds, LogoOnly, Distinct;
    if intent.DropVersion? {
      VersionSettled(v, intent.version);
    }
    if intent.SaveSettings? && w.cached.Some? {
      DrawsSame(w, v, t, intent, w.cached.value);
      SameLogoOnly(w, v, w.cached.value);
    }
  }

  lemma VersionSettled(w: World, v: Id)
    requires Distinct(w)
    ensures v in w.db.versions ==> Settled(w, v)
  {
    if v in w.db.versions {
      IsSettled(w, v);
    }
  }

  /** New requests draw new ids only. */
  lemma DrawsSame(w: World, v: World, t: nat, intent: Intent, f: Id)
    requires FilesOk(w) && ReadStep(w, v, t, intent) && LogoOnly(w, f)
    ensures forall u | u in v.pending :: Draws(v.pending[u], f) ==> u in w.pending && Draws(w.pending[u], f)
  {
    hide FilesOk, See, FileIn;
  }

  lemma DrawsUsed(w: World, v: World, t: nat, intent: Intent)
    requires ReadStep(w, v, t, intent)
    ensures forall f, u | u in v.pending && f in w.usedIds :: Draws(v.pending[u], f) ==> u in w.pending && Draws(w.pending[u], f)
    ensures w.usedIds <= v.usedIds
  {
    hide See;
  }

  lemma FilesRead(w: World, t: nat, intent: Intent)
    requires Reachable(w) && FilesOk(w)
    ensures FilesOk(Do(w, Read(t, intent)))
  {
    hide Sound, Checked, Distinct, Tidy, Settled, LogoOnly, See, NewIds, Do, Draws;
    var v := Do(w, Read(t, intent));
    ReadIs(w, t, intent);
    if v != w {
      DistinctDo(w, Read(t, intent));
      DrawsUsed(w, v, t, intent);
      ReadRemembers(w, v, t, intent);
      forall u | u in v.pending
        ensures TicketOk(v, u) && Remembers(v, v.pending[u])
      {
        if u in w.pending {
          assert TicketOk(w, u);
          if u != t {
            SameMemory(w, v, w.pending[u]);
          }
        }
      }
      forall u, x | u in v.purgers && x in v.purgers[u].doomed
        ensures Doomed(v, x)
      {
        assert Doomed(w, x);
        SettledUsed(w, x.0);
        SameSettled(w, v, x.0);
      }
      if v.cached.Some? {
        LogoUsed(w, v.cached.value);
        SameLogoOnly(w, v, v.cached.value);
      }
    }
  }

  lemma FilesClean(w: World, t: nat)
    requires FilesOk(w)
    ensures FilesOk(Do(w, Clean(t)))
  {
    hide FilesOk;
    if t in w.pending && w.pending[t].Abandoned? {
      var v := w.(pending := w.pending - {t});
      TicketsOnly(w, v);
      CleanKey(w, t);
      BlobGone(v, w.pending[t].key);
    }
  }

  lemma CleanKey(w: World, t: nat)
    requires FilesOk(w) && t in w.pending && w.pending[t].Abandoned?
    ensures forall f | Live(w.db, f) :: w.db.files[f].key != w.pending[t].key
    ensures forall u | u in w.pending && u != t :: KeyOf(w.pending[u]) != Some(w.pending[t].key)
  {
    hide Tidy, RowsOk, PurgersOk, MemoryOk;
    assert TicketOk(w, t);
  }

  /** The logo in the database is held by no other row. */
  lemma LogoIsLogoOnly(w: World)
    requires Distinct(w) && Tidy(w.db) && w.db.logo.Some?
    ensures LogoOnly(w, w.db.logo.value)
  {
    hide Distinct, Settled;
    assert FileIn(w.db, LogoFile).Some?;
    IsSettled(w, w.db.logo.value);
  }

  /** The settings are read again after a save, and kept in memory. */
  lemma FilesReload(w: World, t: nat)
    requires Reachable(w) && FilesOk(w) && t in w.pending && w.pending[t].Reloading?
    ensures FilesOk(w.(pending := w.pending[t := Storing(w.db.logo)]))
  {
    hide Tidy, Settled, LogoOnly, NoRowHas, Sound, Distinct, Checked;
    var v := w.(pending := w.pending[t := Storing(w.db.logo)]);
    if w.db.logo.Some? {
      LogoIsLogoOnly(w);
      SameLogoOnly(w, v, w.db.logo.value);
    }
    forall u | u in v.pending
      ensures TicketOk(v, u) && Remembers(v, v.pending[u])
    {
      assert TicketOk(w, u);
      if u != t {
        SameMemory(w, v, w.pending[u]);
      }
    }
    forall u, x | u in v.purgers && x in v.purgers[u].doomed
      ensures Doomed(v, x)
    {
      assert Doomed(w, x);
      SameSettled(w, v, x.0);
    }
    if v.cached.Some? {
      SameLogoOnly(w, v, v.cached.value);
    }
  }

  lemma FilesStore(w: World, t: nat)
    requires FilesOk(w) && t in w.pending && w.pending[t].Storing?
    ensures FilesOk(w.(cached := w.pending[t].logo, pending := w.pending - {t}))
  {
    hide Tidy, RowsOk, TicketsOk, PurgersOk, Remembers, LogoOnly;
    var u := w.(pending := w.pending - {t});
    TicketsOnly(w, u);
    var v := u.(cached := w.pending[t].logo);
    if v.cached.Some? {
      StoredLogo(w, t);
      SameLogoOnly(w, v, v.cached.value);
    }
    CachedOnly(u, v);
  }

  lemma StoredLogo(w: World, t: nat)
    requires FilesOk(w) && t in w.pending && w.pending[t].Storing? && w.pending[t].logo.Some?
    ensures LogoOnly(w, w.pending[t].logo.value)
  {
    hide Tidy, RowsOk, TicketsOk, PurgersOk, LogoOnly;
    assert Remembers(w, w.pending[t]);
  }

  /** Only the cached logo changed. */
  lemma CachedOnly(w: World, v: World)
    requires FilesOk(w) && v == w.(cached := v.cached) && (v.cached.Some? ==> LogoOnly(v, v.cached.value))
    ensures FilesOk(v)
  {
    hide Tidy, Settled, LogoOnly, NoRowHas;
    forall u | u in v.pending
      ensures TicketOk(v, u) && Remembers(v, v.pending[u])
    {
      assert TicketOk(w, u);
      SameMemory(w, v, w.pending[u]);
    }
    forall u, x | u in v.purgers && x in v.purgers[u].doomed
      ensures Doomed(v, x)
    {
      assert Doomed(w, x);
      SameSettled(w, v, x.0);
    }
  }

  lemma FilesRestart(w: World)
    requires Reachable(w) && FilesOk(w)
    ensures FilesOk(Do(w, Restart))
  {
    hide FilesOk, Sound, Distinct, Checked, LogoOnly;
    var u := w.(pending := map[], purgers := map[]);
    TicketsOnly(w, w.(pending := map[]));
    PurgersOnly(w.(pending := map[]), u);
    var v := Do(w, Restart);
    assert Tidy(w.db) by { TidyOf(w); }
    if w.db.logo.Some? {
      LogoIsLogoOnly(w);
      SameLogoOnly(w, v, w.db.logo.value);
    }
    CachedOnly(u, v);
  }

  // ---- purging ----

  lemma DueIsDoomed(w: World, x: (Id, Key))
    requires Distinct(w) && FilesOk(w) && Due(w.db, x, w.clock)
    ensures Doomed(w, x)
  {
    hide Tidy, Distinct, PurgersOk, MemoryOk, Settled;
    IsSettled(w, x.0);
    forall t | t in w.pending
      ensures KeyOf(w.pending[t]) != Some(x.1)
    {
      assert TicketOk(w, t);
    }
  }

  lemma FilesSelect(w: World, t: nat, doomed: seq<(Id, Key)>)
    requires Reachable(w) && FilesOk(w)
    ensures FilesOk(Do(w, SelectDoomed(t, doomed)))
  {
    hide Tidy, RowsOk, TicketsOk, MemoryOk, Sound, Distinct, Checked, Due, Doomed;
    var v := Do(w, SelectDoomed(t, doomed));
    if v != w {
      forall x | x in doomed
        ensures Doomed(w, x)
      {
        assert FilesOk(w);
        DueIsDoomed(w, x);
      }
      PurgersOnly(w, v);
    }
  }

  /** Only the purges in progress changed, to rows that are doomed. */
  lemma PurgersOnly(w: World, v: World)
    requires FilesOk(w) && v == w.(purgers := v.purgers)
    requires forall t | t in v.purgers :: forall x | x in v.purgers[t].doomed :: Doomed(w, x)
    ensures FilesOk(v)
  {
    hide Tidy, Settled, LogoOnly, NoRowHas;
    forall u | u in v.pending
      ensures TicketOk(v, u) && Remembers(v, v.pending[u])
    {
      assert TicketOk(w, u);
      SameMemory(w, v, w.pending[u]);
    }
    forall u, x | u in v.purgers && x in v.purgers[u].doomed
      ensures Doomed(v, x)
    {
      assert Doomed(w, x);
      SameSettled(w, v, x.0);
    }
    if v.cached.Some? {
      SameLogoOnly(w, v, v.cached.value);
    }
  }

  lemma FilesPurgeBlob(w: World, t: nat)
    requires FilesOk(w)
    ensures FilesOk(Do(w, PurgeBlob(t)))
  {
    hide FilesOk, Doomed;
    if t in w.purgers && w.purgers[t].doomed != [] && !w.purgers[t].blobGone {
      var u := w.(purgers := w.purgers[t := w.purgers[t].(blobGone := true)]);
      PurgersFacts(w);
      PurgersOnly(w, u);
      var x := w.purgers[t].doomed[0];
      assert Doomed(w, x);
      DoomedKey(w, x);
      BlobGone(u, x.1);
    }
  }

  lemma PurgersFacts(w: World)
    requires FilesOk(w)
    ensures PurgersOk(w)
  {
  }

  lemma DoomedKey(w: World, x: (Id, Key))
    requires Doomed(w, x)
    ensures forall f | Live(w.db, f) :: w.db.files[f].key != x.1
    ensures forall t | t in w.pending :: KeyOf(w.pending[t]) != Some(x.1)
    ensures !Live(w.db, x.0)
  {
  }

  /** A row that is deleted and due is held by nothing, so the foreign keys let it go. */
  lemma RowGoes(w: World, t: nat)
    requires FilesOk(w) && t in w.purgers && w.purgers[t].doomed != []
    ensures DeleteFileRow(w.db, w.purgers[t].doomed[0].0).Committed?
  {
    hide RowsOk, TicketsOk, MemoryOk, OneHolder, Settled;
    var x := w.purgers[t].doomed[0];
    assert Doomed(w, x);
    DoomedKey(w, x);
  }

  lemma FilesPurgeRow(w: World, t: nat)
    requires FilesOk(w)
    ensures FilesOk(Do(w, PurgeRow(t)))
  {
    hide FilesOk, Held, Doomed;
    if t in w.purgers && w.purgers[t].doomed != [] && w.purgers[t].blobGone {
      var x := w.purgers[t].doomed[0];
      PurgersFacts(w);
      assert Doomed(w, x);
      RowGoes(w, t);
      var u := w.(purgers := w.purgers[t := Purger(w.purgers[t].doomed[1..], false)]);
      PurgersOnly(w, u);
      assert Doomed(u, x) by { DoomedSame(w, u, x); }
      RowGone(u, x);
    }
  }

  lemma DoomedSame(w: World, v: World, x: (Id, Key))
    requires Doomed(w, x) && v == w.(purgers := v.purgers)
    ensures Doomed(v, x)
  {
    hide Settled;
    SameSettled(w, v, x.0);
  }

  lemma RowGone(w: World, x: (Id, Key))
    requires FilesOk(w) && Doomed(w, x)
    ensures FilesOk(w.(db := w.db.(files := w.db.files - {x.0})))
  {
    hide Settled, LogoOnly;
    var v := w.(db := w.db.(files := w.db.files - {x.0}));
    assert Tidy(v.db) by { RowGoneTidy(w, x); }
    forall u | u in v.pending
      ensures TicketOk(v, u) && Remembers(v, v.pending[u])
    {
      assert TicketOk(w, u);
      SameMemory(w, v, w.pending[u]);
    }
    forall u, y | u in v.purgers && y in v.purgers[u].doomed
      ensures Doomed(v, y)
    {
      assert Doomed(w, y);
      SameSettled(w, v, y.0);
    }
    if v.cached.Some? {
      SameLogoOnly(w, v, v.cached.value);
    }
  }

  lemma RowGoneTidy(w: World, x: (Id, Key))
    requires FilesOk(w) && Doomed(w, x)
    ensures Tidy(w.db.(files := w.db.files - {x.0}))
  {
    hide RowsOk, TicketsOk, PurgersOk, MemoryOk, Settled;
    var db' := w.db.(files := w.db.files - {x.0});
    assert forall s: Slot :: FileIn(db', s) == FileIn(w.db, s);
  }

  // ---- every reachable state ----

  lemma FilesDo(w: World, s: Step)
    requires Reachable(w) && FilesOk(w)
    ensures FilesOk(Do(w, s))
  {
    hide Reachable, FilesOk, DoRead, DoCommit, DoPurgeRow, Due;
    match s
    case Tick(now) => FilesTick(w, now);
    case Upload(t, key) => FilesUpload(w, t, key);
    case Read(t, intent) => FilesRead(w, t, intent);
    case Commit(t) => if t in w.pending && w.pending[t].Request? { FilesCommit(w, t); }
    case GiveUp(t) => FilesFewer(w, s);
    case Clean(t) => FilesClean(w, t);
    case Reload(t) => if t in w.pending && w.pending[t].Reloading? { FilesReload(w, t); }
    case Store(t) => if t in w.pending && w.pending[t].Storing? { FilesStore(w, t); }
    case Drop(t) => FilesFewer(w, s);
    case SelectDoomed(t, doomed) => FilesSelect(w, t, doomed);
    case PurgeBlob(t) => FilesPurgeBlob(w, t);
    case PurgeRow(t) => FilesPurgeRow(w, t);
    case StopPurge(t) => FilesStop(w, t);
    case Restart => FilesRestart(w);
  }

  lemma FilesFewer(w: World, s: Step)
    requires FilesOk(w) && (s.GiveUp? || s.Drop?)
    ensures FilesOk(Do(w, s))
  {
    hide FilesOk;
    TicketsOnly(w, Do(w, s));
  }

  lemma FilesStop(w: World, t: nat)
    requires FilesOk(w)
    ensures FilesOk(w.(purgers := w.purgers - {t}))
  {
    hide FilesOk, Doomed;
    PurgersFacts(w);
    PurgersOnly(w, w.(purgers := w.purgers - {t}));
  }

  lemma FilesTick(w: World, now: Moment)
    requires FilesOk(w)
    ensures FilesOk(Do(w, Tick(now)))
  {
    hide Tidy, Settled, LogoOnly;
    var v := Do(w, Tick(now));
    forall u | u in v.pending
      ensures TicketOk(v, u) && Remembers(v, v.pending[u])
    {
      assert TicketOk(w, u);
      SameMemory(w, v, w.pending[u]);
    }
    forall u, x | u in v.purgers && x in v.purgers[u].doomed
      ensures Doomed(v, x)
    {
      assert Doomed(w, x);
      SameSettled(w, v, x.0);
    }
    if v.cached.Some? {
      SameLogoOnly(w, v, v.cached.value);
    }
  }

  lemma {:induction false} FilesRun(w: World, steps: seq<Step>)
    requires Reachable(w) && FilesOk(w)
    ensures Reachable(Run(w, steps)) && FilesOk(Run(w, steps))
    decreases |steps|
  {
    hide Reachable, FilesOk, Do;
    if steps != [] {
      ReachableDo(w, steps[0]);
      FilesDo(w, steps[0]);
      FilesRun(Do(w, steps[0]), steps[1..]);
    }
  }

  lemma StartFiles(clock: Moment)
    ensures FilesOk(Start(clock))
  {
  }

  /**
   * Files never dangle: in every reachable state a file that a version, an invoice or the logo holds
   * has its row, not deleted, and its blob on disk, and nothing else holds it.
   */
  lemma HeldFilesAreWhole(clock: Moment, steps: seq<Step>, s: Slot, s': Slot)
    ensures
      var w := Run(Start(clock), steps);
      FileIn(w.db, s).Some? ==>
        && Live(w.db, FileIn(w.db, s).value) && w.db.files[FileIn(w.db, s).value].key in w.blobs
        && (FileIn(w.db, s') == FileIn(w.db, s) ==> s' == s)
  {
    hide Run, Reachable, TicketsOk, PurgersOk, MemoryOk;
    StartReachable(clock);
    StartFiles(clock);
    FilesRun(Start(clock), steps);
    HolderIs(Run(Start(clock), steps).db, s);
  }

  /** So the purge never meets a foreign key: the row of every blob it deletes goes too. */
  lemma PurgeNeverFails(clock: Moment, steps: seq<Step>, t: nat)
    ensures
      var w := Run(Start(clock), steps);
      t in w.purgers && w.purgers[t].doomed != [] ==> DeleteFileRow(w.db, w.purgers[t].doomed[0].0).Committed?
  {
    hide Run, Reachable, FilesOk, DeleteFileRow;
    StartReachable(clock);
    StartFiles(clock);
    FilesRun(Start(clock), steps);
    var w := Run(Start(clock), steps);
    if t in w.purgers && w.purgers[t].doomed != [] {
      RowGoes(w, t);
    }
  }

  // ---- two uploads, for the runs in which something goes wrong ----

  const KEY_A: Key := "aaaabbbbccccddddeeeeffff00000000"
  const KEY_B: Key := "aaaabbbbccccddddeeeeffff00000001"

  lemma KeysAreValid()
    ensures ValidKey(KEY_A) && ValidKey(KEY_B) && KEY_A != KEY_B
  {
    assert KEY_A[31] != KEY_B[31];
  }

  lemma OneUpload(w: World, t: nat, key: Key)
    requires t !in w.pending && key !in w.usedKeys && ValidKey(key)
    ensures Do(w, Step.Upload(t, key)) ==
      w.(pending := w.pending[t := Uploaded(key)], blobs := w.blobs + {key}, usedKeys := w.usedKeys + {key})
  {
    hide ValidKey;
  }

  lemma TwoUploads(w: World)
    requires w.pending == map[] && w.usedKeys == {} && w.blobs == {}
    ensures Do(Do(w, Step.Upload(0, KEY_A)), Step.Upload(1, KEY_B)) ==
      w.(pending := map[0 := Uploaded(KEY_A), 1 := Uploaded(KEY_B)], blobs := {KEY_A, KEY_B}, usedKeys := {KEY_A, KEY_B})
  {
    hide Do, ValidKey;
    KeysAreValid();
    OneUpload(w, 0, KEY_A);
    OneUpload(Do(w, Step.Upload(0, KEY_A)), 1, KEY_B);
  }
}
