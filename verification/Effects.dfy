/**
 * What deleting undoes (internal/web/deliverables.go): a draft that is created and deleted again, or a
 * deliverable that is, leaves the database as it was, but for the soft-deleted row of an upload.
 */
module Effects {
  import opened Basics
  import opened Timestamps
  import opened JobTable
  import opened Domain
  import opened Schema
  import opened Identity
  import opened Approval
  import Guards

  /** The row an upload leaves behind once nothing holds it any more. */
  function Discarded(db: Db, up: Option<Upload>, now: Instant): Db {
    if up.None? then db else db.(files := db.files[up.value.id := File(up.value.key, Some(now))])
  }

  /** Deleting a draft undoes its creation, number included, and only its upload remains as a deleted row. */
  lemma DraftDeleteUndoesCreate(db: Db, d: Id, id: Id, up: Option<Upload>, reasonOk: bool, now: Moment)
    requires Sound(db) && id !in db.versions && (up.Some? ==> up.value.id !in db.files)
    requires CreateVersion(db, d, id, up, reasonOk).Committed?
    ensures DeleteDraft(CreateVersion(db, d, id, up, reasonOk).db, id, FileId(up), now) == Committed(Discarded(db, up, now))
  {
    hide NewestOf, Sound, HasDecision, InsertFile, MarkDeleted;
    var db1 := CreateVersion(db, d, id, up, reasonOk).db;
    CreateVersionSound(db, d, id, up, reasonOk);
    DeleteDraftSound(db1, id, FileId(up), now);
    InsertFileOnly(db, up);
    var db2 := DropVersions(db1, {id});
    assert db2.versions == db.versions;
    assert db2 == InsertFile(db, up);
    InsertThenMark(db, up, now);
  }

  lemma InsertThenMark(db: Db, up: Option<Upload>, now: Instant)
    requires up.Some? ==> up.value.id !in db.files
    ensures (if up.Some? then MarkDeleted(InsertFile(db, up), {up.value.id}, now) else InsertFile(db, up)) == Discarded(db, up, now)
  {
    if up.Some? {
      assert MarkDeleted(InsertFile(db, up), {up.value.id}, now).files == Discarded(db, up, now).files;
    }
  }

  /** Deleting a deliverable that has no versions undoes its creation. */
  lemma DeliverableDeleteUndoesCreate(db: Db, p: Id, d: Id, required: bool, now: Moment)
    requires Linked(db) && d !in db.deliverables && p in db.projects
    ensures DeleteDeliverable(CreateDeliverable(db, p, d, required).db, d, now) == Committed(db)
  {
    hide FilesOf, HasDecision, MarkDeleted, DeleteDeliverable;
    var db1 := CreateDeliverable(db, p, d, required).db;
    NoVersions(db1, d, now);
    assert db1.deliverables - {d} == db.deliverables;
    assert (map w | w in db1.waivers && db1.waivers[w].deliverable != d :: db1.waivers[w]) == db.waivers;
  }

  lemma NoVersions(db: Db, d: Id, now: Moment)
    requires forall v | v in db.versions :: db.versions[v].deliverable != d
    ensures DeleteDeliverable(db, d, now) == Committed(db.(
      deliverables := db.deliverables - {d}, waivers := map w | w in db.waivers && db.waivers[w].deliverable != d :: db.waivers[w]))
  {
    hide HasDecision, MarkDeleted;
    var vs := set v | v in db.versions && Belongs(db, v, d);
    assert vs == {} && FilesOf(db, {}) == {};
    MarksNone(db, now);
    assert DropVersions(db, {}).versions == db.versions;
  }

  lemma MarksNone(db: Db, now: Instant)
    ensures MarkDeleted(db, {}, now) == db
  {
    assert MarkDeleted(db, {}, now).files == db.files;
  }

  /** Everything that names deliverable d, and nothing else, is missing from db'. */
  ghost predicate OnlyWithout(db: Db, db': Db, d: Id) {
    && db'.projects == db.projects && db'.decisions == db.decisions && db'.signoffs == db.signoffs
    && db'.invoices == db.invoices && db'.logo == db.logo
    && db'.deliverables == db.deliverables - {d}
    && (forall v :: v in db'.versions <==> v in db.versions && db.versions[v].deliverable != d)
    && (forall v | v in db'.versions && v in db.versions :: db'.versions[v] == db.versions[v])
    && (forall w :: w in db'.waivers <==> w in db.waivers && db.waivers[w].deliverable != d)
    && (forall w | w in db'.waivers && w in db.waivers :: db'.waivers[w] == db.waivers[w])
  }

  predicate HeldBelow(db: Db, f: Id, d: Id) { exists v :: v in db.versions && db.versions[v].deliverable == d && db.versions[v].file == Some(f) }

  /**
   * A deliverable can be deleted exactly while every version of it is a draft. Then it, its versions and its
   * waivers are gone, their files are deleted as of now, and every other row is as it was.
   */
  lemma DeliverableGoesExactly(db: Db, d: Id, now: Moment)
    requires Sound(db)
    ensures
      var r := DeleteDeliverable(db, d, now);
      && (r.Committed? <==> forall v | v in db.versions && db.versions[v].deliverable == d :: db.versions[v].state.Draft?)
      && (r.Committed? ==>
            && OnlyWithout(db, r.db, d) && r.db.files.Keys == db.files.Keys
            && forall f | f in db.files :: r.db.files[f] == if HeldBelow(db, f, d) then File(db.files[f].key, Some(now)) else db.files[f])
  {
    hide Sound, DeleteDeliverable;
    Guards.DropDeliverableCommits(db, d, now);
    if DeleteDeliverable(db, d, now).Committed? {
      DeleteDeliverableRows(db, d, now);
      DeleteDeliverableFiles(db, d, now);
    }
  }

  lemma DeleteDeliverableRows(db: Db, d: Id, now: Moment)
    requires DeleteDeliverable(db, d, now).Committed?
    ensures OnlyWithout(db, DeleteDeliverable(db, d, now).db, d)
  {
    hide FilesOf, HasDecision;
  }

  lemma DeleteDeliverableFiles(db: Db, d: Id, now: Moment)
    requires DeleteDeliverable(db, d, now).Committed?
    ensures
      var db' := DeleteDeliverable(db, d, now).db;
      && db'.files.Keys == db.files.Keys
      && forall f | f in db.files :: db'.files[f] == if HeldBelow(db, f, d) then File(db.files[f].key, Some(now)) else db.files[f]
  {
    hide HasDecision, FilesOf;
    var vs := set v | v in db.versions && Belongs(db, v, d);
    forall f
      ensures f in FilesOf(db, vs) <==> HeldBelow(db, f, d)
    {
      FileHeldBelow(db, f, d);
    }
  }

  lemma FileHeldBelow(db: Db, f: Id, d: Id)
    ensures f in FilesOf(db, set v | v in db.versions && Belongs(db, v, d)) <==> HeldBelow(db, f, d)
  {
  }
}
