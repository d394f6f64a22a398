/**
 * Restoring a backup (internal/backup/backup.go): only into a directory without a database, never over
 * an existing file, and only entries that a backup can hold. A complete backup restores to a state in
 * which every live file row has its blob.
 */
module Restore {
  import opened Basics
  import opened Timestamps
  import opened JobTable
  import opened Schema
  import opened Requests
  import opened FileTables
  import FileLife
  import Approval
  import opened Backup
  import WalkOrder

  const DB_NAME := "app.db"
  const FILES := "files/"

  /** What a file holds: the copied database, or the object stored under a key. */
  datatype Body = Snapshot(db: Db) | Object(key: Key)
  datatype Entry = Entry(name: string, regular: bool, body: Body)

  datatype Failure = HasDatabase | BadName | FileExists | NoDatabase
  datatype Result = Restored | Refused(why: Failure)

  predicate ContainsAt(s: string, sub: string, i: int) { 0 <= i <= |s| - |sub| && s[i..i + |sub|] == sub }

  predicate Contains(s: string, sub: string) { exists i | 0 <= i <= |s| :: ContainsAt(s, sub, i) }

  /** The name check: the database or something below files/, no "..", not absolute. */
  predicate GoodName(name: string) {
    (name == DB_NAME || FILES <= name) && !Contains(name, "..") && !("/" <= name)
  }

  type Files = map<string, Body>

  /** The directory after the entries, or None when one of them stops the restore. */
  function Unpack(files: Files, entries: seq<Entry>): Option<Files> {
    if entries == [] then Some(files)
    else
      var e := entries[|entries| - 1];
      var done :- Unpack(files, entries[..|entries| - 1]);
      if !GoodName(e.name) then None
      else if !e.regular then Some(done)
      else if e.name in done then None
      else Some(done[e.name := e.body])
  }

  /** What a whole restore gives: nothing when it fails. */
  function RestoreOf(files: Files, entries: seq<Entry>): Option<Files> {
    if DB_NAME in files then None
    else
      var done :- Unpack(files, entries);
      if DB_NAME in done then Some(done) else None
  }

  // ---- which entries are accepted, and where they lie ----

  /** The next part of a path, up to a slash. */
  function Part(path: string): string { if path == "" || path[0] == '/' then "" else [path[0]] + Part(path[1..]) }

  lemma {:induction false} PartIs(path: string)
    ensures Part(path) <= path
  {
    if path != "" && path[0] != '/' {
      PartIs(path[1..]);
    }
  }

  /** Walking the path part by part from `depth` directories down never leaves the directory it started in. */
  ghost predicate StaysBelow(path: string, depth: int)
    decreases |path|
  {
    PartIs(path);
    var part, rest := Part(path), path[|Part(path)|..];
    var next := if part == "" || part == "." then depth else if part == ".." then depth - 1 else depth + 1;
    next >= 0 && (rest == "" || StaysBelow(rest[1..], next))
  }

  /** The names a backup can hold, letter by letter. */
  predicate Allowed(name: string) {
    && (name == "app.db" || "files/" <= name)
    && forall i | 0 <= i < |name| - 1 :: !(name[i] == '.' && name[i + 1] == '.')
  }

  lemma TwoDotsAt(name: string, i: int)
    ensures ContainsAt(name, "..", i) <==> 0 <= i < |name| - 1 && name[i] == '.' && name[i + 1] == '.'
  {
    if 0 <= i < |name| - 1 {
      assert name[i..i + 2] == [name[i], name[i + 1]];
    }
  }

  lemma TwoDots(name: string)
    ensures Contains(name, "..") <==> exists i :: 0 <= i < |name| - 1 && name[i] == '.' && name[i + 1] == '.'
  {
    hide ContainsAt;
    if Contains(name, "..") {
      var i :| 0 <= i <= |name| && ContainsAt(name, "..", i);
      TwoDotsAt(name, i);
    }
    if i :| 0 <= i < |name| - 1 && name[i] == '.' && name[i + 1] == '.' {
      TwoDotsAt(name, i);
    }
  }

  /** The name check lets through exactly those names. */
  lemma GoodNameExactly(name: string)
    ensures GoodName(name) <==> Allowed(name)
  {
    hide Contains;
    TwoDots(name);
    assert "app.db"[0] == 'a' && "files/"[0] == 'f' && "/"[0] == '/';
  }

  lemma {:induction false} NoDotsStaysBelow(path: string, depth: int)
    requires depth >= 0 && forall i | 0 <= i < |path| - 1 :: !(path[i] == '.' && path[i + 1] == '.')
    ensures StaysBelow(path, depth)
    decreases |path|
  {
    PartIs(path);
    var part, rest := Part(path), path[|Part(path)|..];
    assert part != ".." by { NotTwoDots(path); }
    if rest != "" {
      var next := if part == "" || part == "." then depth else depth + 1;
      NoDotsStaysBelow(rest[1..], next);
    }
  }

  lemma NotTwoDots(path: string)
    requires forall i | 0 <= i < |path| - 1 :: !(path[i] == '.' && path[i + 1] == '.')
    requires Part(path) <= path
    ensures Part(path) != ".."
  {
    assert |Part(path)| == 2 ==> path[0] == Part(path)[0] && path[1] == Part(path)[1];
  }

  /** An allowed name is a relative path that never leaves the directory. */
  lemma AllowedStaysInside(name: string)
    requires Allowed(name)
    ensures StaysBelow(name, 0) && name != "" && name[0] != '/'
  {
    NoDotsStaysBelow(name, 0);
    assert "files/"[0] == 'f' && "app.db"[0] == 'a';
    assert name[0] != '/';
  }

  /** The file that entry i would make is there already, from before or from an earlier entry. */
  predicate Collides(files: Files, entries: seq<Entry>, i: nat)
    requires i < |entries|
  {
    && entries[i].regular
    && (entries[i].name in files || exists j :: 0 <= j < i && entries[j].regular && entries[j].name == entries[i].name)
  }

  /** All entries before n are accepted. */
  predicate AcceptedTo(files: Files, entries: seq<Entry>, n: nat)
    requires n <= |entries|
  {
    forall i | 0 <= i < n :: Allowed(entries[i].name) && !Collides(files, entries, i)
  }

  class DataDir {
    var files: Files

    constructor ()
      ensures files == map[]
    {
      files := map[];
    }

    /** The loop over the archive. A failed restore may leave files behind, but it overwrites none. */
    method Restore(entries: seq<Entry>) returns (r: Result)
      modifies this
      ensures r.Restored? <==> RestoreOf(old(files), entries).Some?
      ensures r.Restored? ==> RestoreOf(old(files), entries) == Some(files)
      ensures forall n | n in old(files) :: n in files && files[n] == old(files)[n]
      ensures forall n | n in files && n !in old(files) :: Allowed(n) && StaysBelow(n, 0) && n != "" && n[0] != '/'
      ensures r == Refused(HasDatabase) <==> "app.db" in old(files)
      ensures r == Refused(BadName) <==>
        ("app.db" !in old(files)
         && exists i :: 0 <= i < |entries| && AcceptedTo(old(files), entries, i) && !Allowed(entries[i].name))
      ensures r == Refused(FileExists) <==>
        ("app.db" !in old(files)
         && exists i :: 0 <= i < |entries| && AcceptedTo(old(files), entries, i) && Allowed(entries[i].name) && Collides(old(files), entries, i))
      ensures r == Refused(NoDatabase) <==>
        ("app.db" !in old(files) && AcceptedTo(old(files), entries, |entries|)
         && forall i | 0 <= i < |entries| && entries[i].regular :: entries[i].name != "app.db")
      ensures r.Restored? ==> forall n :: n in files <==> n in old(files) || exists i :: 0 <= i < |entries| && entries[i].regular && entries[i].name == n
      ensures r.Restored? ==> forall i | 0 <= i < |entries| && entries[i].regular :: files[entries[i].name] == entries[i].body
    {
      hide Allowed, StaysBelow, Unpack, GoodName;
      if DB_NAME in files {
        return Refused(HasDatabase);
      }
      assert Unpack(files, entries[..0]) == Some(files) by { UnpackNothing(files, entries); }
      var sawDB := false;
      var i := 0;
      while i < |entries|
        invariant 0 <= i <= |entries|
        invariant Unpack(old(files), entries[..i]) == Some(files)
        invariant sawDB <==> DB_NAME in files
        invariant forall n | n in old(files) :: n in files && files[n] == old(files)[n]
        invariant AcceptedTo(old(files), entries, i)
        invariant forall n | n in files && n !in old(files) :: Allowed(n) && StaysBelow(n, 0) && n != "" && n[0] != '/'
        invariant forall n :: n in files <==> n in old(files) || exists j :: 0 <= j < i && entries[j].regular && entries[j].name == n
        invariant forall j | 0 <= j < i && entries[j].regular :: files[entries[j].name] == entries[j].body
      {
        var e := entries[i];
        GoodNameExactly(e.name);
        NextUnpacked(old(files), entries, i);
        if !GoodName(e.name) {
          StopsHere(old(files), entries, i + 1);
          return Refused(BadName);
        }
        i := i + 1;
        if !e.regular {
          continue;
        }
        AllowedStaysInside(e.name);
        if e.name in files {
          StopsHere(old(files), entries, i);
          return Refused(FileExists);
        }
        files := files[e.name := e.body];
        sawDB := sawDB || e.name == DB_NAME;
      }
      assert entries[..i] == entries;
      if !sawDB {
        return Refused(NoDatabase);
      }
      return Restored;
    }
  }

  lemma UnpackNothing(files: Files, entries: seq<Entry>)
    ensures Unpack(files, entries[..0]) == Some(files)
  {
  }

  lemma NextUnpacked(files: Files, entries: seq<Entry>, i: nat)
    requires i < |entries|
    ensures
      var done, e := Unpack(files, entries[..i]), entries[i];
      Unpack(files, entries[..i + 1]) ==
        if done.None? || !GoodName(e.name) then None
        else if !e.regular then done
        else if e.name in done.value then None
        else Some(done.value[e.name := e.body])
  {
    hide GoodName;
    assert entries[..i + 1][..i] == entries[..i];
  }

  /** An entry that stops the restore stops it for good. */
  lemma {:induction false} StopsHere(files: Files, entries: seq<Entry>, n: nat)
    requires n <= |entries| && Unpack(files, entries[..n]).None?
    ensures Unpack(files, entries).None?
    decreases |entries| - n
  {
    if n == |entries| {
      assert entries[..n] == entries;
    } else {
      assert entries[..n + 1][..n] == entries[..n];
      StopsHere(files, entries, n + 1);
    }
  }

  // ---- the archive that Write makes ----

  /** files/ab/cd/abcd..., the path of an object. */
  function PathOf(k: Key): string
    requires ValidKey(k)
  {
    FILES + (k[..2] + "/" + k[2..4] + "/") + k
  }

  function ObjectEntries(keys: seq<Key>): seq<Entry>
    requires forall k | k in keys :: ValidKey(k)
  {
    if keys == [] then []
    else ObjectEntries(keys[..|keys| - 1]) + [Entry(PathOf(keys[|keys| - 1]), true, Object(keys[|keys| - 1]))]
  }

  function ArchiveOf(snapshot: Db, keys: seq<Key>): seq<Entry>
    requires forall k | k in keys :: ValidKey(k)
  {
    [Entry(DB_NAME, true, Snapshot(snapshot))] + ObjectEntries(keys)
  }

  lemma PathInjective(k: Key, l: Key)
    requires ValidKey(k) && ValidKey(l) && PathOf(k) == PathOf(l)
    ensures k == l
  {
    assert PathOf(k)[12..] == k && PathOf(l)[12..] == l;
  }

  lemma PathIsGood(k: Key)
    requires ValidKey(k)
    ensures GoodName(PathOf(k)) && PathOf(k) != DB_NAME
  {
    var p := PathOf(k);
    forall i | 0 <= i < |p|
      ensures p[i] != '.'
    {
      assert p[i] == FILES[0] || i > 0;
      if i >= 12 {
        assert p[i] == k[i - 12] && k[i - 12] in k;
      } else if i >= 9 && i < 11 {
        assert p[i] == k[2..4][i - 9] && k[i - 7] in k;
      } else if 6 <= i < 8 {
        assert p[i] == k[..2][i - 6] && k[i - 6] in k;
      }
    }
    assert FILES <= p;
    assert p[0] == 'f' && p[1] == 'i';
    forall i | 0 <= i <= |p|
      ensures !ContainsAt(p, "..", i)
    {
      assert i + 2 <= |p| ==> p[i..i + 2][0] == p[i] && p[i..i + 2][0] != ".."[0];
    }
  }

  predicate NoRepeats(keys: seq<Key>) { forall i, j | 0 <= i < j < |keys| :: keys[i] != keys[j] }

  /** The objects unpack to exactly themselves, next to the database. */
  lemma {:induction false} UnpackObjects(snapshot: Db, keys: seq<Key>)
    requires (forall k | k in keys :: ValidKey(k)) && NoRepeats(keys)
    ensures
      var r := Unpack(map[], ArchiveOf(snapshot, keys));
      && r.Some? && DB_NAME in r.value && r.value[DB_NAME] == Snapshot(snapshot)
      && (forall n | n in r.value :: n == DB_NAME || exists k :: k in keys && n == PathOf(k) && r.value[n] == Object(k))
      && (forall k | k in keys :: PathOf(k) in r.value && r.value[PathOf(k)] == Object(k))
  {
    hide PathOf, ValidKey, GoodName;
    var all := ArchiveOf(snapshot, keys);
    if keys == [] {
      assert all == [Entry(DB_NAME, true, Snapshot(snapshot))] && all[..0] == [];
      DbNameIsGood();
    } else {
      var init, last := keys[..|keys| - 1], keys[|keys| - 1];
      assert all[..|all| - 1] == ArchiveOf(snapshot, init);
      UnpackObjects(snapshot, init);
      PathIsGood(last);
      forall k | k in init
        ensures PathOf(k) != PathOf(last)
      {
        if PathOf(k) == PathOf(last) {
          PathInjective(k, last);
        }
      }
    }
  }

  lemma DbNameIsGood()
    ensures GoodName(DB_NAME)
  {
    assert DB_NAME[0] == 'a' && DB_NAME[1] == 'p' && DB_NAME[2] == 'p' && DB_NAME[3] == '.' && DB_NAME[4] == 'd' && DB_NAME[5] == 'b';
  }

  // ---- a backup taken while the server runs ----

  /** The archived keys are valid and come once. */
  ghost predicate ArchiveOk(x: Both) {
    && KeysValid(x.world) && OnceEach(x.walk) && NoRepeats(x.walk.archived)
    && (forall k | k in x.walk.archived :: k in x.world.usedKeys)
  }

  lemma UsedKeysGrow(w: World, s: Step)
    ensures w.usedKeys <= Do(w, s).usedKeys
  {
    hide See, Transact, NewIds, NoticeOf, Due, Held, ValidKey;
  }

  lemma ArchiveDo(x: Both, a: Action)
    requires ArchiveOk(x)
    ensures ArchiveOk(Act(x, a))
  {
    hide Do, ValidKey;
    match a
    case Server(s) =>
      KeysValidDo(x.world, s);
      UsedKeysGrow(x.world, s);
    case Visit(listing) =>
      VisitApart(x.world, x.walk, listing);
      VisitOnce(x.world, x.walk, listing);
  }

  lemma VisitOnce(w: World, b: Walk, listing: seq<Node>)
    requires ArchiveOk(Both(w, b))
    ensures NoRepeats(Visited(w, b, listing).archived)
    ensures forall k | k in Visited(w, b, listing).archived :: k in w.usedKeys
  {
    hide ValidKey, Listing;
    if b.todo != [] && b.todo[0].Leaf? {
      assert b.todo[0] in b.todo && Covers(b.todo[0], b.todo[0].key);
    }
  }

  lemma {:induction false} ArchiveActs(x: Both, actions: seq<Action>)
    requires ArchiveOk(x)
    ensures ArchiveOk(Acts(x, actions))
    decreases |actions|
  {
    hide ArchiveOk, Act;
    if actions != [] {
      ArchiveDo(x, actions[0]);
      ArchiveActs(Act(x, actions[0]), actions[1..]);
    }
  }

  lemma ArchiveBegins(clock: Moment, before: seq<Step>)
    ensures ArchiveOk(Begun(Run(Start(clock), before)))
  {
    hide Run, KeysValid;
    NoKeys(clock);
    KeysValidRun(Start(clock), before);
  }

  lemma ArchivedValid(x: Both)
    requires ArchiveOk(x)
    ensures forall k | k in x.walk.archived :: ValidKey(k)
  {
    hide ValidKey;
  }

  predicate HasObject(files: Files, k: Key) {
    ValidKey(k) && PathOf(k) in files && files[PathOf(k)] == Object(k)
  }

  /** An archive restores into an empty directory, and the objects there are the archived ones. */
  lemma RestoresArchived(snapshot: Db, keys: seq<Key>, k: Key)
    requires (forall l | l in keys :: ValidKey(l)) && NoRepeats(keys)
    ensures
      var r := RestoreOf(map[], ArchiveOf(snapshot, keys));
      && r.Some? && DB_NAME in r.value && r.value[DB_NAME] == Snapshot(snapshot)
      && (ValidKey(k) ==> (HasObject(r.value, k) <==> k in keys))
  {
    hide PathOf, ValidKey, ArchiveOf, Unpack;
    UnpackObjects(snapshot, keys);
    var r := RestoreOf(map[], ArchiveOf(snapshot, keys));
    if ValidKey(k) && HasObject(r.value, k) {
      PathIsGood(k);
      var l :| l in keys && PathOf(k) == PathOf(l) && r.value[PathOf(k)] == Object(l);
    }
  }

  lemma KeyValid(clock: Moment, before: seq<Step>, f: Id)
    ensures
      var w := Run(Start(clock), before);
      f in w.db.files ==> ValidKey(w.db.files[f].key)
  {
    hide Run, Approval.Reachable, ValidKey, FileTables.Tidy, FileLife.TicketsOk, FileLife.PurgersOk, FileLife.MemoryOk;
    Approval.StartReachable(clock);
    FileLife.StartFiles(clock);
    FileLife.FilesRun(Start(clock), before);
    NoKeys(clock);
    KeysValidRun(Start(clock), before);
  }

  /**
   * A backup of the running server, ended within seven days less a second of its snapshot, however it
   * ended, restores into an empty directory: the result holds the snapshot, and every file row that is
   * live in it has its object exactly when no listed file had vanished at its turn or the first that had
   * sorts after every live blob. After a vanished file the live rows with their objects are those before it.
   */
  lemma RestoredExactly(clock: Moment, before: seq<Step>, actions: seq<Action>)
    ensures
      var w := Run(Start(clock), before);
      var x := Acts(Begun(w), actions);
      && (forall k | k in x.walk.archived :: ValidKey(k))
      && (x.world.clock <= w.clock + 7 * DAY - SECOND && WalkOrder.Ended(x.walk) ==>
            var r := RestoreOf(map[], ArchiveOf(w.db, x.walk.archived));
            && r.Some? && DB_NAME in r.value && r.value[DB_NAME] == Snapshot(w.db)
            && (AllHere(w.db, r.value) <==> x.walk.stopped.None? || WalkOrder.AllBefore(w.db, x.walk.stopped.value))
            && (x.walk.stopped.Some? ==>
                  forall f | Live(w.db, f) :: HasObject(r.value, w.db.files[f].key) <==> Less(w.db.files[f].key, x.walk.stopped.value)))
  {
    hide Run, Acts, ValidKey, PathOf, ArchiveOf, Unpack, HasObject, RestoreOf, Less;
    var w := Run(Start(clock), before);
    var x := Acts(Begun(w), actions);
    ArchiveBegins(clock, before);
    ArchiveActs(Begun(w), actions);
    ArchivedValid(x);
    RestoresArchived(w.db, x.walk.archived, "");
    if x.world.clock <= w.clock + 7 * DAY - SECOND && WalkOrder.Ended(x.walk) {
      WalkOrder.CompleteExactly(clock, before, actions);
      var r := RestoreOf(map[], ArchiveOf(w.db, x.walk.archived));
      forall f | Live(w.db, f)
        ensures HasObject(r.value, w.db.files[f].key) <==> w.db.files[f].key in x.walk.archived
      {
        KeyValid(clock, before, f);
        RestoresArchived(w.db, x.walk.archived, w.db.files[f].key);
      }
    }
  }

  /** Every live row of the snapshot has its object in the directory. */
  ghost predicate AllHere(snapshot: Db, files: Files) { forall f | Live(snapshot, f) :: HasObject(files, snapshot.files[f].key) }
}
