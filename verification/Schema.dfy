/**
 * The tables behind approvals, sign-offs and files (internal/db/migrations), with ids in place of
 * random strings, and the transactions of internal/web on them. A transaction either commits a new
 * database or rolls back; foreign keys are checked where SQLite checks them.
 */
module Schema {
  import opened Basics
  import opened Timestamps
  import opened JobTable
  import opened Domain

  type Id = nat
  type Key = string

  /** Storage keys are 16 random bytes in hex (internal/storage/storage.go). */
  predicate ValidKey(k: string) { |k| == 32 && forall c | c in k :: IsHex(c) }

  predicate IsHex(c: char) { '0' <= c <= '9' || 'a' <= c <= 'f' || 'A' <= c <= 'F' }

  datatype Project = Project(org: Id, closed: bool)
  datatype Deliverable = Deliverable(project: Id, required: bool)
  datatype Version = Version(deliverable: Id, number: nat, state: VersionState, file: Option<Id>)
  datatype Decision = Decision(version: Id, verdict: VersionState)
  datatype Waiver = Waiver(deliverable: Id, reason: string, at: Instant)
  /** One line of the sign-off snapshot: the newest version's number and state, and the waiver. */
  datatype Row = Row(deliverable: Id, number: nat, state: Option<VersionState>, waiver: string) {
    predicate Satisfied() { state == Some(Approved) || waiver != "" }
  }
  datatype Signoff = Signoff(project: Id, rows: seq<Row>)
  datatype Invoice = Invoice(project: Id, status: InvoiceStatus, file: Option<Id>)
  datatype File = File(key: Key, deletedAt: Option<Instant>)

  datatype Db = Db(
    projects: map<Id, Project>,
    deliverables: map<Id, Deliverable>,
    versions: map<Id, Version>,
    decisions: map<Id, Decision>,
    waivers: map<Id, Waiver>,
    signoffs: map<Id, Signoff>,
    invoices: map<Id, Invoice>,
    files: map<Id, File>,
    logo: Option<Id>)

  const EMPTY: Db := Db(map[], map[], map[], map[], map[], map[], map[], map[], None)

  /** A stored upload: the id its row will get and the key of the blob on disk. */
  datatype Upload = Upload(id: Id, key: Key)

  datatype Refusal = NotFound | NotAllowed | Invalid | ForeignKey
  datatype TxResult = Committed(db: Db) | RolledBack(why: Refusal) {
    function Else(before: Db): Db { if Committed? then db else before }
  }

  // ---- queries ----

  predicate Belongs(db: Db, v: Id, d: Id) { v in db.versions && db.versions[v].deliverable == d }

  /** ORDER BY number DESC LIMIT 1 among the versions of d. */
  predicate Newest(db: Db, v: Id, d: Id) {
    Belongs(db, v, d) && forall u | u in db.versions && Belongs(db, u, d) :: db.versions[u].number <= db.versions[v].number
  }

  ghost function NewestOf(db: Db, d: Id): Option<Id> {
    if v :| Newest(db, v, d) then Some(v) else None
  }

  predicate InProject(db: Db, v: Id, p: Id) {
    && v in db.versions && db.versions[v].deliverable in db.deliverables
    && db.deliverables[db.versions[v].deliverable].project == p
  }

  predicate HasDecision(db: Db, v: Id) { exists c :: c in db.decisions && db.decisions[c].version == v }

  function FilesOf(db: Db, vs: set<Id>): set<Id> {
    set v | v in vs && v in db.versions && db.versions[v].file.Some? :: db.versions[v].file.value
  }

  // ---- statements ----

  function InsertFile(db: Db, up: Option<Upload>): Db {
    if up.None? then db else db.(files := db.files[up.value.id := File(up.value.key, None)])
  }

  function FileId(up: Option<Upload>): Option<Id> { if up.None? then None else Some(up.value.id) }

  /** UPDATE files SET deleted_at = now WHERE id IN ids. */
  function MarkDeleted(db: Db, ids: set<Id>, now: Instant): Db {
    db.(files := map f | f in db.files :: if f in ids then db.files[f].(deletedAt := Some(now)) else db.files[f])
  }

  function DropVersions(db: Db, vs: set<Id>): Db {
    db.(versions := map v | v in db.versions && v !in vs :: db.versions[v])
  }

  // ---- transactions ----

  ghost function CreateVersion(db: Db, d: Id, id: Id, up: Option<Upload>, reasonOk: bool): TxResult {
    var latest := NewestOf(db, d);
    var needsReason := NewVersion(if latest.None? then None else Some(db.versions[latest.value].state));
    var number := if latest.None? then 0 else db.versions[latest.value].number;
    if needsReason.None? then RolledBack(NotAllowed)
    else if needsReason.value && !reasonOk then RolledBack(Invalid)
    else if d !in db.deliverables then RolledBack(ForeignKey)
    else
      var db1 := InsertFile(db, up);
      Committed(db1.(versions := db1.versions[id := Version(d, number + 1, Draft, FileId(up))]))
  }

  /** UPDATE ... SET state = to WHERE id = v AND state = from, refused when no row matched. */
  function MoveVersion(db: Db, v: Id, from: VersionState, to: VersionState): TxResult {
    if v in db.versions && db.versions[v].state == from
    then Committed(db.(versions := db.versions[v := db.versions[v].(state := to)]))
    else RolledBack(NotAllowed)
  }

  function Decide(db: Db, v: Id, to: VersionState, id: Id): TxResult {
    match MoveVersion(db, v, Shared, to)
    case RolledBack(why) => RolledBack(why)
    case Committed(db1) => Committed(db1.(decisions := db1.decisions[id := Decision(v, to)]))
  }

  /** Deletes a draft; the file id is the one the request read before. */
  function DeleteDraft(db: Db, v: Id, file: Option<Id>, now: Instant): TxResult {
    if v !in db.versions || db.versions[v].state != Draft then RolledBack(NotAllowed)
    else if HasDecision(db, v) then RolledBack(ForeignKey)
    else
      var db1 := DropVersions(db, {v});
      Committed(if file.Some? then MarkDeleted(db1, {file.value}, now) else db1)
  }

  function DeleteDeliverable(db: Db, d: Id, now: Instant): TxResult {
    var vs := set v | v in db.versions && Belongs(db, v, d);
    if exists v :: v in vs && db.versions[v].state != Draft then RolledBack(NotAllowed)
    else if exists v :: v in vs && HasDecision(db, v) then RolledBack(ForeignKey)
    else
      var db1 := DropVersions(MarkDeleted(db, FilesOf(db, vs), now), vs);
      Committed(db1.(deliverables := db1.deliverables - {d},
                     waivers := map w | w in db1.waivers && db1.waivers[w].deliverable != d :: db1.waivers[w]))
  }

  function Waive(db: Db, d: Id, id: Id, reason: string, now: Instant): TxResult {
    if d !in db.deliverables then RolledBack(ForeignKey)
    else Committed(db.(waivers := db.waivers[id := Waiver(d, reason, now)]))
  }

  /** Records the snapshot; the project is closed only if it is still active, and nobody checks. */
  function SignOff(db: Db, p: Id, id: Id, rows: seq<Row>): TxResult {
    if p !in db.projects then RolledBack(ForeignKey)
    else Committed(db.(signoffs := db.signoffs[id := Signoff(p, rows)],
                       projects := db.projects[p := db.projects[p].(closed := true)]))
  }

  function SetClosed(db: Db, p: Id, closed: bool): TxResult {
    Committed(if p !in db.projects then db else db.(projects := db.projects[p := db.projects[p].(closed := closed)]))
  }

  /** deleteProjects: soft-delete the files, delete the decisions, delete the project with all below it. */
  function DeleteProject(db: Db, p: Id, now: Instant): TxResult {
    var vs := set v | v in db.versions && InProject(db, v, p);
    var invoiceFiles := set i | i in db.invoices && db.invoices[i].project == p && db.invoices[i].file.Some? :: db.invoices[i].file.value;
    var db1 := MarkDeleted(db, FilesOf(db, vs) + invoiceFiles, now);
    var db2 := db1.(decisions := map c | c in db1.decisions && db1.decisions[c].version !in vs :: db1.decisions[c]);
    if exists v :: v in vs && HasDecision(db2, v) then RolledBack(ForeignKey)
    else
      var db3 := DropVersions(db2, vs);
      Committed(db3.(
        projects := db3.projects - {p},
        deliverables := map d | d in db3.deliverables && db3.deliverables[d].project != p :: db3.deliverables[d],
        waivers := map w | w in db3.waivers && !(db3.waivers[w].deliverable in db.deliverables && db.deliverables[db3.waivers[w].deliverable].project == p) :: db3.waivers[w],
        signoffs := map s | s in db3.signoffs && db3.signoffs[s].project != p :: db3.signoffs[s],
        invoices := map i | i in db3.invoices && db3.invoices[i].project != p :: db3.invoices[i]))
  }

  function CreateProject(db: Db, p: Id, org: Id): TxResult {
    Committed(db.(projects := db.projects[p := Project(org, false)]))
  }

  function CreateDeliverable(db: Db, p: Id, d: Id, required: bool): TxResult {
    if p !in db.projects then RolledBack(ForeignKey)
    else Committed(db.(deliverables := db.deliverables[d := Deliverable(p, required)]))
  }

  function EditDeliverable(db: Db, d: Id, required: bool): TxResult {
    Committed(if d !in db.deliverables then db else db.(deliverables := db.deliverables[d := db.deliverables[d].(required := required)]))
  }

  function CreateInvoice(db: Db, p: Id, id: Id, up: Option<Upload>): TxResult {
    if p !in db.projects then RolledBack(ForeignKey)
    else
      var db1 := InsertFile(db, up);
      Committed(db1.(invoices := db1.invoices[id := Invoice(p, InvoiceDraft, FileId(up))]))
  }

  /** Editing a draft or sent invoice; a new document replaces the old one, read in the transaction. */
  function EditInvoice(db: Db, i: Id, up: Option<Upload>, now: Instant): TxResult {
    if i !in db.invoices then RolledBack(NotFound)
    else if db.invoices[i].status.Rank() == 2 then RolledBack(NotAllowed)
    else if up.None? then Committed(db)
    else
      var was := db.invoices[i].file;
      var db1 := InsertFile(db, up);
      var db2 := if was.Some? then MarkDeleted(db1, {was.value}, now) else db1;
      Committed(db2.(invoices := db2.invoices[i := db2.invoices[i].(file := FileId(up))]))
  }

  function SetInvoiceStatus(db: Db, i: Id, to: InvoiceStatus): TxResult {
    if i !in db.invoices then RolledBack(NotFound)
    else if !InvoiceTransition(db.invoices[i].status, to) then RolledBack(NotAllowed)
    else Committed(db.(invoices := db.invoices[i := db.invoices[i].(status := to)]))
  }

  /** Replacing the logo; `was` comes from the settings cached in memory, not from the transaction. */
  function SaveLogo(db: Db, up: Option<Upload>, was: Option<Id>, now: Instant): TxResult {
    if up.None? then Committed(db)
    else
      var db1 := InsertFile(db, up);
      var db2 := if was.Some? then MarkDeleted(db1, {was.value}, now) else db1;
      Committed(db2.(logo := FileId(up)))
  }

  // ---- which row holds a file ----

  datatype Slot = VersionFile(version: Id) | InvoiceFile(invoice: Id) | LogoFile

  function FileIn(db: Db, s: Slot): Option<Id> {
    match s
    case VersionFile(v) => if v in db.versions then db.versions[v].file else None
    case InvoiceFile(i) => if i in db.invoices then db.invoices[i].file else None
    case LogoFile => db.logo
  }

  ghost predicate Held(db: Db, f: Id) { exists s: Slot :: FileIn(db, s) == Some(f) }

  /** DELETE FROM files WHERE id = f: a row that something still references cannot go. */
  ghost function DeleteFileRow(db: Db, f: Id): TxResult {
    if f in db.files && Held(db, f) then RolledBack(ForeignKey) else Committed(db.(files := db.files - {f}))
  }
}
