/**
 * What each transaction does to the file rows and to the rows that hold files: a file that is held
 * has a live row, and no file is held twice.
 */
module FileTables {
  import opened Basics
  import opened Timestamps
  import opened JobTable
  import opened Domain
  import opened Schema
  import opened Requests
  import opened Identity
  import opened Approval

  predicate Live(db: Db, f: Id) { f in db.files && db.files[f].deletedAt.None? }

  ghost predicate HeldLive(db: Db) { forall s: Slot | FileIn(db, s).Some? :: Live(db, FileIn(db, s).value) }

  ghost predicate OneHolder(db: Db) {
    forall s: Slot, s': Slot | FileIn(db, s).Some? && FileIn(db, s) == FileIn(db, s') :: s == s'
  }

  ghost predicate Tidy(db: Db) { HeldLive(db) && OneHolder(db) }

  /** The upload is the row of no file yet, so nothing holds it. */
  predicate NewFile(db: Db, up: Option<Schema.Upload>) { up.Some? ==> up.value.id !in db.files }

  predicate IsUpload(up: Option<Schema.Upload>, f: Id) { up.Some? && up.value.id == f }

  /** File rows: none goes, at most the upload's comes, and the others at most get deleted. */
  ghost predicate RowsStep(db: Db, db': Db, up: Option<Schema.Upload>, now: Instant) {
    && (forall f | f in db.files :: f in db'.files && Aged(db.files[f], db'.files[f], now))
    && (forall f | f in db'.files && f !in db.files :: IsUpload(up, f) && db'.files[f] == File(up.value.key, None))
  }

  predicate Aged(a: File, b: File, now: Instant) { b.key == a.key && (b.deletedAt == a.deletedAt || b.deletedAt == Some(now)) }

  /** Slots: each holds what it held, or the upload, or nothing. */
  ghost predicate SlotsStep(db: Db, db': Db, up: Option<Schema.Upload>) {
    forall s: Slot | FileIn(db', s).Some? :: FileIn(db', s) == FileIn(db, s) || IsUpload(up, FileIn(db', s).value)
  }

  ghost predicate FileStep(db: Db, db': Db, up: Option<Schema.Upload>, now: Instant) {
    Tidy(db') && RowsStep(db, db', up, now) && SlotsStep(db, db', up)
  }

  /** Nothing about files changed. */
  lemma NoFileStep(db: Db, db': Db, up: Option<Schema.Upload>, now: Instant)
    requires Tidy(db) && db'.files == db.files && db'.logo == db.logo && db'.invoices == db.invoices
    requires forall v | v in db'.versions :: v in db.versions && db'.versions[v].file == db.versions[v].file
    ensures FileStep(db, db', up, now)
  {
    assert forall s: Slot | FileIn(db', s).Some? :: FileIn(db', s) == FileIn(db, s);
  }

  lemma InvoiceFileStep(db: Db, i: Id, to: InvoiceStatus, up: Option<Schema.Upload>, now: Instant)
    requires Tidy(db)
    ensures FileStep(db, SetInvoiceStatus(db, i, to).Else(db), up, now)
  {
    var db' := SetInvoiceStatus(db, i, to).Else(db);
    assert forall s: Slot | FileIn(db', s).Some? :: FileIn(db', s) == FileIn(db, s);
  }

  /** A new holder for the upload, or for nothing. */
  lemma AddHolder(db: Db, db': Db, s: Slot, up: Option<Schema.Upload>, now: Instant)
    requires Tidy(db) && NewFile(db, up) && db'.files == InsertFile(db, up).files
    requires FileIn(db', s) == FileId(up)
    requires forall x: Slot | x != s :: FileIn(db', x) == FileIn(db, x)
    ensures FileStep(db, db', up, now)
  {
    hide FileIn;
  }

  lemma CreateVersionFiles(db: Db, d: Id, id: Id, up: Option<Schema.Upload>, reasonOk: bool, now: Instant)
    requires Tidy(db) && NewFile(db, up)
    ensures FileStep(db, CreateVersion(db, d, id, up, reasonOk).Else(db), up, now)
  {
    hide NewestOf, FileStep, Tidy, InsertFile;
    var r := CreateVersion(db, d, id, up, reasonOk);
    if r.Committed? {
      InsertFileOnly(db, up);
      AddHolder(db, r.db, VersionFile(id), up, now);
    } else {
      NoFileStep(db, db, up, now);
    }
  }

  lemma CreateInvoiceFiles(db: Db, p: Id, id: Id, up: Option<Schema.Upload>, now: Instant)
    requires Tidy(db) && NewFile(db, up)
    ensures FileStep(db, CreateInvoice(db, p, id, up).Else(db), up, now)
  {
    hide FileStep, Tidy, InsertFile;
    var r := CreateInvoice(db, p, id, up);
    if r.Committed? {
      InsertFileOnly(db, up);
      AddHolder(db, r.db, InvoiceFile(id), up, now);
    } else {
      NoFileStep(db, db, up, now);
    }
  }

  /** Slot s changes from `was` to the upload, and `was` is marked; no other slot holds it. */
  lemma SwapHolder(db: Db, db': Db, s: Slot, was: Option<Id>, up: Option<Schema.Upload>, now: Instant)
    requires Tidy(db) && NewFile(db, up) && up.Some?
    requires was.Some? ==> forall x: Slot | x != s :: FileIn(db, x) != was
    requires was.Some? ==> was.value != up.value.id
    requires db'.files == (if was.Some? then MarkDeleted(InsertFile(db, up), {was.value}, now) else InsertFile(db, up)).files
    requires FileIn(db', s) == FileId(up)
    requires forall x: Slot | x != s :: FileIn(db', x) == FileIn(db, x)
    ensures FileStep(db, db', up, now)
  {
    hide FileIn;
  }

  lemma EditInvoiceFiles(db: Db, i: Id, up: Option<Schema.Upload>, now: Instant)
    requires Tidy(db) && NewFile(db, up)
    ensures FileStep(db, EditInvoice(db, i, up, now).Else(db), up, now)
  {
    hide FileStep, InsertFile, MarkDeleted, HeldLive, OneHolder;
    var r := EditInvoice(db, i, up, now);
    if r.Committed? && up.Some? {
      EditInvoiceDoes(db, i, up, now);
      HolderIs(db, InvoiceFile(i));
      SwapHolder(db, r.db, InvoiceFile(i), db.invoices[i].file, up, now);
    } else {
      NoFileStep(db, db, up, now);
    }
  }

  lemma EditInvoiceDoes(db: Db, i: Id, up: Option<Schema.Upload>, now: Instant)
    requires EditInvoice(db, i, up, now).Committed? && up.Some?
    ensures
      var db' := EditInvoice(db, i, up, now).db;
      && i in db.invoices && db'.versions == db.versions && db'.logo == db.logo
      && db'.invoices == db.invoices[i := db.invoices[i].(file := FileId(up))]
  {
    hide InsertFile, MarkDeleted;
    InsertFileOnly(db, up);
    if db.invoices[i].file.Some? {
      MarkDeletedOnly(InsertFile(db, up), {db.invoices[i].file.value}, now);
    }
  }

  /** What a slot holds is live and held by no other. */
  lemma HolderIs(db: Db, s: Slot)
    requires Tidy(db)
    ensures FileIn(db, s).Some? ==> Live(db, FileIn(db, s).value) && forall x: Slot | x != s :: FileIn(db, x) != FileIn(db, s)
  {
  }

  lemma SaveLogoFiles(db: Db, up: Option<Schema.Upload>, was: Option<Id>, now: Instant)
    requires Tidy(db) && NewFile(db, up)
    requires was.Some? ==> (up.Some? ==> was.value != up.value.id) && forall x: Slot | x != LogoFile :: FileIn(db, x) != was
    ensures FileStep(db, SaveLogo(db, up, was, now).Else(db), up, now)
  {
    hide FileStep, InsertFile, MarkDeleted, HeldLive, OneHolder;
    var r := SaveLogo(db, up, was, now);
    if up.Some? {
      InsertFileOnly(db, up);
      if was.Some? {
        MarkDeletedOnly(InsertFile(db, up), {was.value}, now);
      }
      SwapHolder(db, r.db, LogoFile, was, up, now);
    } else {
      NoFileStep(db, db, up, now);
    }
  }

  /** Slots are emptied and the files they held are marked. */
  lemma DropHolders(db: Db, db': Db, gone: set<Id>, up: Option<Schema.Upload>, now: Instant)
    requires Tidy(db) && db'.files == MarkDeleted(db, gone, now).files
    requires forall s: Slot | FileIn(db', s).Some? :: FileIn(db', s) == FileIn(db, s) && FileIn(db, s).value !in gone
    ensures FileStep(db, db', up, now)
  {
    hide FileIn;
  }

  lemma MoveVersionFiles(db: Db, v: Id, from: VersionState, to: VersionState, up: Option<Schema.Upload>, now: Instant)
    requires Tidy(db)
    ensures FileStep(db, MoveVersion(db, v, from, to).Else(db), up, now)
  {
    hide FileStep, Tidy;
    NoFileStep(db, MoveVersion(db, v, from, to).Else(db), up, now);
  }

  lemma DecideFiles(db: Db, v: Id, to: VersionState, id: Id, up: Option<Schema.Upload>, now: Instant)
    requires Tidy(db)
    ensures FileStep(db, Decide(db, v, to, id).Else(db), up, now)
  {
    hide FileStep, Tidy;
    NoFileStep(db, Decide(db, v, to, id).Else(db), up, now);
  }

  /** The file a draft delete marks is the version's own. */
  lemma DeleteDraftFiles(db: Db, v: Id, file: Option<Id>, up: Option<Schema.Upload>, now: Instant)
    requires Tidy(db) && (v in db.versions ==> db.versions[v].file == file)
    ensures FileStep(db, DeleteDraft(db, v, file, now).Else(db), up, now)
  {
    hide FileStep, HasDecision, MarkDeleted, HeldLive, OneHolder;
    var r := DeleteDraft(db, v, file, now);
    if r.Committed? {
      HolderIs(db, VersionFile(v));
      var db1 := DropVersions(db, {v});
      if file.Some? {
        MarkDeletedOnly(db1, {file.value}, now);
        assert MarkDeleted(db1, {file.value}, now).files == MarkDeleted(db, {file.value}, now).files by { MarkDeletedFiles(db1, db, {file.value}, now); }
        DropHolders(db, r.db, {file.value}, up, now);
      } else {
        NoFileStep(db, r.db, up, now);
      }
    } else {
      NoFileStep(db, db, up, now);
    }
  }

  lemma MarkDeletedFiles(db: Db, db': Db, fs: set<Id>, now: Instant)
    requires db'.files == db.files
    ensures MarkDeleted(db', fs, now).files == MarkDeleted(db, fs, now).files
  {
  }

  /** A version that stays holds no file of a version that goes. */
  lemma VersionsGo(db: Db, vs: set<Id>, s: Slot)
    requires Tidy(db) && FileIn(db, s).Some? && (s.VersionFile? ==> s.version !in vs)
    ensures FileIn(db, s).value !in FilesOf(db, vs)
  {
    hide HeldLive;
    forall v | v in vs && v in db.versions
      ensures db.versions[v].file != FileIn(db, s)
    {
      assert FileIn(db, VersionFile(v)) == db.versions[v].file;
    }
  }

  lemma DeleteDeliverableFiles(db: Db, d: Id, up: Option<Schema.Upload>, now: Instant)
    requires Tidy(db)
    ensures FileStep(db, DeleteDeliverable(db, d, now).Else(db), up, now)
  {
    hide FileStep, Tidy, MarkDeleted, FilesOf;
    var r := DeleteDeliverable(db, d, now);
    var vs := set v | v in db.versions && Belongs(db, v, d);
    if r.Committed? {
      DeleteDeliverableDoes(db, d, now);
      forall s: Slot | FileIn(r.db, s).Some?
        ensures FileIn(r.db, s) == FileIn(db, s) && FileIn(db, s).value !in FilesOf(db, vs)
      {
        VersionsGo(db, vs, s);
      }
      DropHolders(db, r.db, FilesOf(db, vs), up, now);
    } else {
      NoFileStep(db, db, up, now);
    }
  }

  lemma DeleteDeliverableDoes(db: Db, d: Id, now: Instant)
    requires DeleteDeliverable(db, d, now).Committed?
    ensures
      var db' := DeleteDeliverable(db, d, now).db;
      var vs := set v | v in db.versions && Belongs(db, v, d);
      && db'.invoices == db.invoices && db'.logo == db.logo && db'.files == MarkDeleted(db, FilesOf(db, vs), now).files
      && db'.versions == DropVersions(db, vs).versions
  {
    hide FilesOf, HasDecision;
  }

  function InvoicesOf(db: Db, p: Id): set<Id> {
    set i | i in db.invoices && db.invoices[i].project == p && db.invoices[i].file.Some? :: db.invoices[i].file.value
  }

  lemma DeleteProjectDoes(db: Db, p: Id, now: Instant)
    requires DeleteProject(db, p, now).Committed?
    ensures
      var db' := DeleteProject(db, p, now).db;
      var vs := set v | v in db.versions && InProject(db, v, p);
      && db'.logo == db.logo && db'.files == MarkDeleted(db, FilesOf(db, vs) + InvoicesOf(db, p), now).files
      && db'.versions == DropVersions(db, vs).versions
      && db'.invoices == map i | i in db.invoices && db.invoices[i].project != p :: db.invoices[i]
  {
    hide FilesOf, HasDecision, InProject;
  }

  /** An invoice that stays, or another slot, holds no document of an invoice that goes. */
  lemma InvoicesGo(db: Db, p: Id, s: Slot)
    requires Tidy(db) && FileIn(db, s).Some? && (s.InvoiceFile? ==> db.invoices[s.invoice].project != p)
    ensures FileIn(db, s).value !in InvoicesOf(db, p)
  {
    hide HeldLive;
    forall i | i in db.invoices && db.invoices[i].project == p
      ensures db.invoices[i].file != FileIn(db, s)
    {
      assert FileIn(db, InvoiceFile(i)) == db.invoices[i].file;
    }
  }

  lemma DeleteProjectFiles(db: Db, p: Id, up: Option<Schema.Upload>, now: Instant)
    requires Tidy(db)
    ensures FileStep(db, DeleteProject(db, p, now).Else(db), up, now)
  {
    hide FileStep, Tidy, MarkDeleted, FilesOf, InvoicesOf, DeleteProject, InProject;
    var r := DeleteProject(db, p, now);
    var vs := set v | v in db.versions && InProject(db, v, p);
    if r.Committed? {
      DeleteProjectDoes(db, p, now);
      forall s: Slot | FileIn(r.db, s).Some?
        ensures FileIn(r.db, s) == FileIn(db, s) && FileIn(db, s).value !in FilesOf(db, vs) + InvoicesOf(db, p)
      {
        VersionsGo(db, vs, s);
        InvoicesGo(db, p, s);
      }
      DropHolders(db, r.db, FilesOf(db, vs) + InvoicesOf(db, p), up, now);
    } else {
      NoFileStep(db, db, up, now);
    }
  }

  /** The rest touch no versions' files, invoices or files. */
  predicate Fileless(intent: Intent) {
    || intent.AddProject? || intent.CloseProject? || intent.ReopenProject? || intent.AddDeliverable?
    || intent.ChangeDeliverable? || intent.AddWaiver? || intent.Sign?
  }

  lemma FilelessFiles(db: Db, r: Pending, up: Option<Schema.Upload>, now: Moment)
    requires r.Request? && Fileless(r.intent) && Tidy(db)
    ensures FileStep(db, Transact(db, r, now).Else(db), up, now)
  {
    hide FileStep, Tidy, Transact;
    PlainTables(db, r, now);
    NoFileStep(db, Transact(db, r, now).Else(db), up, now);
  }

  ghost predicate SameHolders(db: Db, db': Db) {
    db'.files == db.files && db'.logo == db.logo && db'.invoices == db.invoices && db'.versions == db.versions
  }

  lemma PlainTables(db: Db, r: Pending, now: Moment)
    requires r.Request? && Fileless(r.intent)
    ensures SameHolders(db, Transact(db, r, now).Else(db))
  {
    hide DeleteProject, DeleteDeliverable, DeleteDraft, CreateVersion, CreateInvoice, EditInvoice, SaveLogo, MoveVersion, Decide,
         SetInvoiceStatus, UploadOf, CreateProject, SetClosed, CreateDeliverable, EditDeliverable, Waive, SignOff;
    match r.intent
    case AddProject(org, id) => ProjectTables(db, id, org, false);
    case CloseProject(p) => ProjectTables(db, p, 0, true);
    case ReopenProject(p) => ProjectTables(db, p, 0, false);
    case AddDeliverable(p, required, id) => DeliverableTables(db, p, id, required);
    case ChangeDeliverable(d, required) => DeliverableTables(db, d, d, required);
    case AddWaiver(d, reason, id) => WaiverTables(db, d, id, reason, now);
    case Sign(p, _, id) => if r.seen.SeenRows? { SignOffTables(db, p, id, r.seen.rows); }
  }

  lemma ProjectTables(db: Db, p: Id, org: Id, closed: bool)
    ensures SameHolders(db, CreateProject(db, p, org).Else(db)) && SameHolders(db, SetClosed(db, p, closed).Else(db))
  {
  }

  lemma DeliverableTables(db: Db, x: Id, d: Id, required: bool)
    ensures SameHolders(db, CreateDeliverable(db, x, d, required).Else(db)) && SameHolders(db, EditDeliverable(db, x, required).Else(db))
  {
  }

  lemma WaiverTables(db: Db, d: Id, id: Id, reason: string, now: Moment)
    ensures SameHolders(db, Waive(db, d, id, reason, now).Else(db))
  {
  }

  lemma SignOffTables(db: Db, p: Id, id: Id, rows: seq<Row>)
    ensures SameHolders(db, SignOff(db, p, id, rows).Else(db))
  {
  }

  function UploadIn(r: Pending): Option<Schema.Upload>
    requires r.Request?
  {
    if TakesUpload(r.intent) then UploadOf(r.intent.file, r.upload) else None
  }

  /** What the request remembers of files fits the database. */
  ghost predicate SeenFits(db: Db, r: Pending)
    requires r.Request?
  {
    && (r.intent.DropVersion? && r.seen.SeenVersion? && r.intent.version in db.versions ==>
          db.versions[r.intent.version].file == r.seen.file)
    && (r.intent.SaveSettings? && r.seen.SeenLogo? && r.seen.logo.Some? ==>
          r.seen.logo.value != r.intent.file && forall s: Slot | s != LogoFile :: FileIn(db, s) != r.seen.logo)
  }

  /** Every transaction keeps files that are held live and held once. */
  lemma TransactFiles(db: Db, r: Pending, now: Moment)
    requires r.Request? && Tidy(db) && NewFile(db, UploadIn(r)) && SeenFits(db, r)
    ensures FileStep(db, Transact(db, r, now).Else(db), UploadIn(r), now)
  {
    hide FileStep, Tidy, DeleteProject, DeleteDeliverable, DeleteDraft, CreateVersion, CreateInvoice, EditInvoice, SaveLogo, MoveVersion, Decide,
         SetInvoiceStatus, FileIn;
    var up := UploadIn(r);
    if Fileless(r.intent) {
      FilelessFiles(db, r, up, now);
    } else {
      NoFileStep(db, db, up, now);
      match r.intent
      case DropProject(p, _) => DeleteProjectFiles(db, p, up, now);
      case DropDeliverable(d) => DeleteDeliverableFiles(db, d, up, now);
      case AddVersion(d, reasonOk, id, file) => CreateVersionFiles(db, d, id, up, reasonOk, now);
      case Share(v) => if r.seen.SeenVersion? { MoveVersionFiles(db, v, r.seen.state, Shared, up, now); }
      case Withdraw(v) => if r.seen.SeenVersion? { MoveVersionFiles(db, v, r.seen.state, Withdrawn, up, now); }
      case DropVersion(v) => if r.seen.SeenVersion? { DeleteDraftFiles(db, v, r.seen.file, up, now); }
      case Answer(v, to, id) => DecideFiles(db, v, to, id, up, now);
      case AddInvoice(p, id, file) => CreateInvoiceFiles(db, p, id, up, now);
      case ChangeInvoice(i, file) => EditInvoiceFiles(db, i, up, now);
      case MoveInvoice(i, to) => InvoiceFileStep(db, i, to, up, now);
      case SaveSettings(file) => if r.seen.SeenLogo? { SaveLogoFiles(db, up, r.seen.logo, now); }
    }
  }
}
