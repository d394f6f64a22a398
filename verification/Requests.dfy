/**
 * The running server as interleaved steps. A request reads first, through the reader pool, and
 * commits later in one transaction; uploads reach the disk before the transaction; the purge job
 * deletes a blob and then its row; and a restart can fall anywhere. Steps of different requests
 * interleave freely. A step that is not possible changes nothing.
 */
module Requests {
  import opened Basics
  import opened Timestamps
  import opened JobTable
  import opened Domain
  import opened Schema

  /** What a request asks for, with the ids it will give to new rows. */
  datatype Intent =
    | AddProject(org: Id, id: Id)
    | CloseProject(project: Id)
    | ReopenProject(project: Id)
    | DropProject(project: Id, withClient: bool)  // deleted on its own, or with its client organization
    | AddDeliverable(project: Id, required: bool, id: Id)
    | ChangeDeliverable(deliverable: Id, required: bool)
    | DropDeliverable(deliverable: Id)
    | AddWaiver(deliverable: Id, reason: string, id: Id)
    | AddVersion(deliverable: Id, reasonOk: bool, id: Id, file: Id)
    | Share(version: Id)
    | Withdraw(version: Id)
    | DropVersion(version: Id)
    | Answer(version: Id, verdict: VersionState, id: Id)
    | Sign(project: Id, order: seq<Id>, id: Id)
    | AddInvoice(project: Id, id: Id, file: Id)
    | ChangeInvoice(invoice: Id, file: Id)
    | MoveInvoice(invoice: Id, status: InvoiceStatus)
    | SaveSettings(file: Id)

  /** What the read step remembers for the transaction. */
  datatype Seen =
    | Nothing
    | SeenVersion(state: VersionState, file: Option<Id>)
    | SeenRows(rows: seq<Row>)
    | SeenLogo(logo: Option<Id>)

  datatype Pending =
    | Uploaded(key: Key)
    | Request(intent: Intent, upload: Option<Key>, seen: Seen)
    | Abandoned(key: Key)
    | Reloading
    | Storing(logo: Option<Id>)

  /** A purge in progress: the rows it selected and whether the first one's blob is gone already. */
  datatype Purger = Purger(doomed: seq<(Id, Key)>, blobGone: bool)

  /** One call of notify: the kind of event and the record it is about. */
  datatype Notice = Notice(kind: string, record: Id)

  datatype World = World(
    db: Db,
    blobs: set<Key>,
    pending: map<nat, Pending>,
    purgers: map<nat, Purger>,
    cached: Option<Id>,
    clock: Moment,
    usedIds: set<Id>,
    usedKeys: set<Key>,
    notices: seq<Notice>)

  datatype Step =
    | Tick(now: Moment)
    | Upload(ticket: nat, key: Key)
    | Read(ticket: nat, intent: Intent)
    | Commit(ticket: nat)
    | GiveUp(ticket: nat)
    | Clean(ticket: nat)
    | Reload(ticket: nat)
    | Store(ticket: nat)
    | Drop(ticket: nat)
    | SelectDoomed(purger: nat, doomed: seq<(Id, Key)>)
    | PurgeBlob(purger: nat)
    | PurgeRow(purger: nat)
    | StopPurge(purger: nat)
    | Restart

  const PURGE_DELAY: int := 7 * DAY
  const PURGE_LIMIT: nat := 500

  function Start(clock: Moment): World {
    World(Schema.EMPTY, {}, map[], map[], None, clock, {}, {}, [])
  }

  // ---- the read step ----

  predicate Writable(db: Db, p: Id) { p in db.projects && !db.projects[p].closed }

  predicate WritableDeliverable(db: Db, d: Id) { d in db.deliverables && Writable(db, db.deliverables[d].project) }

  predicate WritableVersion(db: Db, v: Id) { v in db.versions && WritableDeliverable(db, db.versions[v].deliverable) }

  predicate WritableInvoice(db: Db, i: Id) { i in db.invoices && Writable(db, db.invoices[i].project) }

  /** The newest waiver of d: ORDER BY created_at DESC LIMIT 1, which leaves ties open. */
  predicate LastWaiver(db: Db, w: Id, d: Id) {
    && w in db.waivers && db.waivers[w].deliverable == d
    && forall u | u in db.waivers && db.waivers[u].deliverable == d :: !Before(db.waivers[w].at, db.waivers[u].at)
  }

  ghost function WaiverOf(db: Db, d: Id): string {
    if w :| LastWaiver(db, w, d) then db.waivers[w].reason else ""
  }

  /** The row that loadHandoff selects for a deliverable. */
  ghost function RowOf(db: Db, d: Id): Row {
    var v := NewestOf(db, d);
    if v.None? then Row(d, 0, None, WaiverOf(db, d))
    else Row(d, db.versions[v.value].number, Some(db.versions[v.value].state), WaiverOf(db, d))
  }

  predicate Required(db: Db, d: Id, p: Id) {
    d in db.deliverables && db.deliverables[d].required && db.deliverables[d].project == p
  }

  /** `order` lists the required deliverables of p, each once: some ORDER BY of the handoff query. */
  ghost predicate Lists(db: Db, order: seq<Id>, p: Id) {
    && (forall d :: d in order <==> Required(db, d, p))
    && (forall i, j | 0 <= i < j < |order| :: order[i] != order[j])
  }

  ghost function RowsOf(db: Db, order: seq<Id>): seq<Row> { seq(|order|, i requires 0 <= i < |order| => RowOf(db, order[i])) }

  /** h.Ready: at least one row, and every row satisfied. */
  predicate AllSatisfied(rows: seq<Row>) { rows != [] && forall r | r in rows :: r.Satisfied() }

  /** None is an error page: the record is missing, the project closed, or the move not allowed. */
  ghost function See(w: World, intent: Intent): Option<Seen> {
    var db := w.db;
    match intent
    case AddProject(_, _) => Some(Nothing)
    case CloseProject(p) => if Writable(db, p) then Some(Nothing) else None
    case ReopenProject(p) => if p in db.projects && db.projects[p].closed then Some(Nothing) else None
    case DropProject(p, withClient) => if p in db.projects && (withClient || db.projects[p].closed) then Some(Nothing) else None
    case AddDeliverable(p, _, _) => if Writable(db, p) then Some(Nothing) else None
    case ChangeDeliverable(d, _) => if WritableDeliverable(db, d) then Some(Nothing) else None
    case DropDeliverable(d) => if WritableDeliverable(db, d) then Some(Nothing) else None
    case AddWaiver(d, reason, _) => if WritableDeliverable(db, d) && 3 <= |reason| <= 1000 then Some(Nothing) else None
    case AddVersion(d, _, _, _) => if WritableDeliverable(db, d) then Some(Nothing) else None
    case Share(v) =>
      if WritableVersion(db, v) && Transition(db.versions[v].state, Shared, Staff)
      then Some(SeenVersion(db.versions[v].state, db.versions[v].file)) else None
    case Withdraw(v) =>
      if WritableVersion(db, v) && Transition(db.versions[v].state, Withdrawn, Staff)
      then Some(SeenVersion(db.versions[v].state, db.versions[v].file)) else None
    case DropVersion(v) =>
      if WritableVersion(db, v) then Some(SeenVersion(db.versions[v].state, db.versions[v].file)) else None
    case Answer(v, to, _) =>
      if WritableVersion(db, v) && (to.Approved? || to.RevisionRequested?) && Transition(db.versions[v].state, to, Client)
      then Some(SeenVersion(db.versions[v].state, db.versions[v].file)) else None
    case Sign(p, order, _) =>
      if Writable(db, p) && Lists(db, order, p) && AllSatisfied(RowsOf(db, order))
      then Some(SeenRows(RowsOf(db, order))) else None
    case AddInvoice(p, _, _) => if Writable(db, p) then Some(Nothing) else None
    case ChangeInvoice(i, _) => if WritableInvoice(db, i) then Some(Nothing) else None
    case MoveInvoice(i, _) => if WritableInvoice(db, i) then Some(Nothing) else None
    case SaveSettings(_) => Some(SeenLogo(w.cached))
  }

  /** The random ids a request draws; NewID never repeats one. */
  function NewIds(intent: Intent): set<Id> {
    match intent
    case AddProject(_, id) => {id}
    case AddDeliverable(_, _, id) => {id}
    case AddWaiver(_, _, id) => {id}
    case AddVersion(_, _, id, file) => {id, file}
    case Answer(_, _, id) => {id}
    case Sign(_, _, id) => {id}
    case AddInvoice(_, id, file) => {id, file}
    case ChangeInvoice(_, file) => {file}
    case SaveSettings(file) => {file}
    case _ => {}
  }

  predicate TakesUpload(intent: Intent) {
    intent.AddVersion? || intent.AddInvoice? || intent.ChangeInvoice? || intent.SaveSettings?
  }

  ghost function DoRead(w: World, t: nat, intent: Intent): World {
    var free := t !in w.pending;
    var withUpload := t in w.pending && w.pending[t].Uploaded? && TakesUpload(intent);
    var distinct := (intent.AddVersion? || intent.AddInvoice?) ==> intent.id != intent.file;
    if (free || withUpload) && distinct && NewIds(intent) !! w.usedIds && See(w, intent).Some? then
      var upload := if withUpload then Some(w.pending[t].key) else None;
      w.(pending := w.pending[t := Request(intent, upload, See(w, intent).value)],
         usedIds := w.usedIds + NewIds(intent))
    else w
  }

  // ---- the commit step ----

  function UploadOf(file: Id, key: Option<Key>): Option<Schema.Upload> {
    if key.None? then None else Some(Schema.Upload(file, key.value))
  }

  ghost function Transact(db: Db, r: Pending, now: Moment): TxResult
    requires r.Request?
  {
    match r.intent
    case AddProject(org, id) => CreateProject(db, id, org)
    case CloseProject(p) => SetClosed(db, p, true)
    case ReopenProject(p) => SetClosed(db, p, false)
    case DropProject(p, _) => DeleteProject(db, p, now)
    case AddDeliverable(p, required, id) => CreateDeliverable(db, p, id, required)
    case ChangeDeliverable(d, required) => EditDeliverable(db, d, required)
    case DropDeliverable(d) => DeleteDeliverable(db, d, now)
    case AddWaiver(d, reason, id) => Waive(db, d, id, reason, now)
    case AddVersion(d, reasonOk, id, file) => CreateVersion(db, d, id, UploadOf(file, r.upload), reasonOk)
    case Share(v) => if r.seen.SeenVersion? then MoveVersion(db, v, r.seen.state, Shared) else RolledBack(Invalid)
    case Withdraw(v) => if r.seen.SeenVersion? then MoveVersion(db, v, r.seen.state, Withdrawn) else RolledBack(Invalid)
    case DropVersion(v) => if r.seen.SeenVersion? then DeleteDraft(db, v, r.seen.file, now) else RolledBack(Invalid)
    case Answer(v, to, id) => Decide(db, v, to, id)
    case Sign(p, _, id) => if r.seen.SeenRows? then SignOff(db, p, id, r.seen.rows) else RolledBack(Invalid)
    case AddInvoice(p, id, file) => CreateInvoice(db, p, id, UploadOf(file, r.upload))
    case ChangeInvoice(i, file) => EditInvoice(db, i, UploadOf(file, r.upload), now)
    case MoveInvoice(i, to) => SetInvoiceStatus(db, i, to)
    case SaveSettings(file) =>
      if r.seen.SeenLogo? then SaveLogo(db, UploadOf(file, r.upload), r.seen.logo, now) else RolledBack(Invalid)
  }

  /** The notify call that the transaction makes, if any. */
  function NoticeOf(intent: Intent): seq<Notice> {
    match intent
    case Share(v) => [Notice("version.shared", v)]
    case Withdraw(v) => [Notice("version.withdrawn", v)]
    case Answer(_, _, id) => [Notice("decision", id)]
    case Sign(_, _, id) => [Notice("signoff", id)]
    case MoveInvoice(i, to) => if to.InvoiceSent? then [Notice("invoice.sent", i)] else []
    case _ => []
  }

  ghost function DoCommit(w: World, t: nat): World
    requires t in w.pending && w.pending[t].Request?
  {
    var r := w.pending[t];
    match Transact(w.db, r, w.clock)
    case Committed(db) =>
      w.(db := db,
         pending := if r.intent.SaveSettings? then w.pending[t := Reloading] else w.pending - {t},
         notices := w.notices + NoticeOf(r.intent))
    case RolledBack(_) =>
      w.(pending := if r.upload.Some? then w.pending[t := Abandoned(r.upload.value)] else w.pending - {t})
  }

  // ---- purging ----

  predicate Due(db: Db, x: (Id, Key), now: Moment) {
    && x.0 in db.files && db.files[x.0].key == x.1
    && db.files[x.0].deletedAt.Some? && Before(db.files[x.0].deletedAt.value, now - PURGE_DELAY)
  }

  ghost function DoPurgeRow(w: World, t: nat): World
    requires t in w.purgers && w.purgers[t].doomed != []
  {
    var p := w.purgers[t];
    match DeleteFileRow(w.db, p.doomed[0].0)
    case Committed(db) => w.(db := db, purgers := w.purgers[t := Purger(p.doomed[1..], false)])
    case RolledBack(_) => w.(purgers := w.purgers - {t})
  }

  ghost function Do(w: World, s: Step): World {
    match s
    case Tick(now) => if w.clock <= now then w.(clock := now) else w
    case Upload(t, key) =>
      if t !in w.pending && key !in w.usedKeys && ValidKey(key)
      then w.(pending := w.pending[t := Uploaded(key)], blobs := w.blobs + {key}, usedKeys := w.usedKeys + {key})
      else w
    case Read(t, intent) => DoRead(w, t, intent)
    case Commit(t) => if t in w.pending && w.pending[t].Request? then DoCommit(w, t) else w
    case GiveUp(t) =>
      if t in w.pending && w.pending[t].Uploaded? then w.(pending := w.pending[t := Abandoned(w.pending[t].key)])
      else if t in w.pending && w.pending[t].Request? && w.pending[t].upload.Some?
      then w.(pending := w.pending[t := Abandoned(w.pending[t].upload.value)])
      else w
    case Clean(t) =>
      if t in w.pending && w.pending[t].Abandoned?
      then w.(blobs := w.blobs - {w.pending[t].key}, pending := w.pending - {t})
      else w
    case Reload(t) =>
      if t in w.pending && w.pending[t].Reloading? then w.(pending := w.pending[t := Storing(w.db.logo)]) else w
    case Store(t) =>
      if t in w.pending && w.pending[t].Storing? then w.(cached := w.pending[t].logo, pending := w.pending - {t}) else w
    case Drop(t) => w.(pending := w.pending - {t})
    case SelectDoomed(t, doomed) =>
      if t !in w.purgers && |doomed| <= PURGE_LIMIT && forall x | x in doomed :: Due(w.db, x, w.clock)
      then w.(purgers := w.purgers[t := Purger(doomed, false)]) else w
    case PurgeBlob(t) =>
      if t in w.purgers && w.purgers[t].doomed != [] && !w.purgers[t].blobGone
      then w.(blobs := w.blobs - {w.purgers[t].doomed[0].1}, purgers := w.purgers[t := w.purgers[t].(blobGone := true)])
      else w
    case PurgeRow(t) =>
      if t in w.purgers && w.purgers[t].doomed != [] && w.purgers[t].blobGone then DoPurgeRow(w, t) else w
    case StopPurge(t) => w.(purgers := w.purgers - {t})
    case Restart => w.(pending := map[], purgers := map[], cached := w.db.logo)
  }

  ghost function Run(w: World, steps: seq<Step>): World
    decreases |steps|
  {
    if steps == [] then w else Run(Do(w, steps[0]), steps[1..])
  }

  lemma {:induction false} RunAppend(w: World, a: seq<Step>, b: seq<Step>)
    ensures Run(w, a + b) == Run(Run(w, a), b)
    decreases |a|
  {
    if a == [] {
      assert a + b == b;
    } else {
      assert (a + b)[1..] == a[1..] + b;
      RunAppend(Do(w, a[0]), a[1..], b);
    }
  }
}
