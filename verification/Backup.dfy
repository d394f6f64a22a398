/**
 * Backups of a running server (internal/backup/backup.go): Write copies the database first and then
 * walks the upload directory, while requests and the purge go on. A blob that was live in the snapshot
 * stays on disk for as long as the purge delay, less the second the text timestamps may hide; so the
 * archive is complete if the walk gets to the end. But a file that vanishes between the listing of its
 * directory and its turn ends the walk without an error, and what was still waiting is missing.
 */
module Backup {
  import opened Basics
  import opened Timestamps
  import opened JobTable
  import opened Domain
  import opened Schema
  import opened Requests
  import opened Identity
  import opened Approval
  import opened FileTables
  import opened FileLife
  import Closing

  // ---- a live blob stays on disk ----

  /** Row f was live at t0: it may have been deleted since, but no purge has chosen it. */
  ghost predicate Protected(w: World, f: Id, k: Key, t0: Moment) {
    && t0 <= w.clock && f in w.db.files && w.db.files[f].key == k && k in w.blobs
    && (w.db.files[f].deletedAt.Some? ==> t0 <= w.db.files[f].deletedAt.value)
    && forall t, x | t in w.purgers && x in w.purgers[t].doomed :: x.1 != k
  }

  lemma LiveIsProtected(w: World, f: Id)
    requires FilesOk(w) && Live(w.db, f)
    ensures Protected(w, f, w.db.files[f].key, w.clock)
  {
    hide Tidy, TicketsOk, MemoryOk, Settled;
    forall t, x | t in w.purgers && x in w.purgers[t].doomed
      ensures x.1 != w.db.files[f].key
    {
      assert Doomed(w, x);
    }
  }

  /** The purge leaves a row alone until it was deleted for seven days, less a second. */
  lemma TooEarly(deletedAt: Instant, now: Moment, t0: Moment)
    requires t0 <= deletedAt && now <= t0 + 7 * DAY - SECOND
    ensures !Before(deletedAt, now - 7 * DAY)
  {
    hide Before;
    WithinASecond(deletedAt, now - 7 * DAY);
  }

  lemma NotYetDue(w: World, f: Id, k: Key, t0: Moment, x: (Id, Key))
    requires RowsOk(w) && Protected(w, f, k, t0) && w.clock <= t0 + 7 * DAY - SECOND && Due(w.db, x, w.clock)
    ensures x.1 != k
  {
    hide Before, Live;
    var at := w.db.files[f].deletedAt;
    if at.Some? {
      TooEarly(at.value, w.clock, t0);
    }
  }

  lemma ProtectedCommit(w: World, t: nat, f: Id, k: Key, t0: Moment)
    requires Reachable(w) && FilesOk(w) && Protected(w, f, k, t0) && t in w.pending && w.pending[t].Request?
    ensures Protected(DoCommit(w, t), f, k, t0)
  {
    hide Reachable, FilesOk, Transact, FileStep, SeenFits, NewFile, NoticeOf;
    if Transact(w.db, w.pending[t], w.clock).Committed? {
      CommitIs(w, t);
      RowsAged(w, DoCommit(w, t), t, UploadIn(w.pending[t]));
    }
  }

  lemma RowsAged(w: World, v: World, t: nat, up: Option<Schema.Upload>)
    requires t in w.pending && FileCommit(w, v, t, up)
    ensures forall f | f in w.db.files :: f in v.db.files && Aged(w.db.files[f], v.db.files[f], w.clock)
    ensures v.blobs == w.blobs && v.purgers == w.purgers
  {
    hide Tidy, SlotsStep;
  }

  lemma ProtectedClean(w: World, t: nat, f: Id, k: Key, t0: Moment)
    requires FilesOk(w) && Protected(w, f, k, t0)
    ensures Protected(Do(w, Clean(t)), f, k, t0)
  {
    hide Tidy, RowsOk, PurgersOk, MemoryOk;
    if t in w.pending && w.pending[t].Abandoned? {
      assert TicketOk(w, t);
    }
  }

  lemma FirstDoomed(w: World, t: nat, f: Id, k: Key, t0: Moment)
    requires FilesOk(w) && Protected(w, f, k, t0) && t in w.purgers && w.purgers[t].doomed != []
    ensures w.purgers[t].doomed[0].0 != f && w.purgers[t].doomed[0].1 != k
  {
    hide Tidy, RowsOk, TicketsOk, MemoryOk, Settled;
    assert Doomed(w, w.purgers[t].doomed[0]);
  }

  lemma ProtectedBlob(w: World, t: nat, f: Id, k: Key, t0: Moment)
    requires FilesOk(w) && Protected(w, f, k, t0)
    ensures Protected(Do(w, PurgeBlob(t)), f, k, t0)
  {
    hide FilesOk;
    if t in w.purgers && w.purgers[t].doomed != [] {
      FirstDoomed(w, t, f, k, t0);
    }
  }

  lemma PurgeRowIs(w: World, t: nat)
    ensures
      var v := Do(w, PurgeRow(t));
      && v.blobs == w.blobs && v.clock == w.clock
      && (v.db.files == w.db.files || (t in w.purgers && w.purgers[t].doomed != [] && v.db.files == w.db.files - {w.purgers[t].doomed[0].0}))
  {
    hide Held;
  }

  lemma PurgeRowPurgers(w: World, t: nat, u: nat, x: (Id, Key))
    ensures
      var v := Do(w, PurgeRow(t));
      u in v.purgers && x in v.purgers[u].doomed ==> u in w.purgers && x in w.purgers[u].doomed
  {
    hide Held;
  }

  lemma ProtectedRow(w: World, t: nat, f: Id, k: Key, t0: Moment)
    requires FilesOk(w) && Protected(w, f, k, t0)
    ensures Protected(Do(w, PurgeRow(t)), f, k, t0)
  {
    hide FilesOk, Do;
    PurgeRowIs(w, t);
    if t in w.purgers && w.purgers[t].doomed != [] {
      FirstDoomed(w, t, f, k, t0);
    }
    var v := Do(w, PurgeRow(t));
    forall u, x | u in v.purgers && x in v.purgers[u].doomed
      ensures x.1 != k
    {
      PurgeRowPurgers(w, t, u, x);
    }
  }

  lemma ProtectedSelect(w: World, s: Step, f: Id, k: Key, t0: Moment)
    requires RowsOk(w) && Protected(w, f, k, t0) && w.clock <= t0 + 7 * DAY - SECOND && s.SelectDoomed?
    ensures Protected(Do(w, s), f, k, t0)
  {
    hide RowsOk, Due;
    var v := Do(w, s);
    if v != w {
      forall x | x in s.doomed
        ensures x.1 != k
      {
        NotYetDue(w, f, k, t0, x);
      }
    }
  }

  lemma ProtectedOther(w: World, s: Step, f: Id, k: Key, t0: Moment)
    requires Protected(w, f, k, t0)
    requires !s.Commit? && !s.Clean? && !s.PurgeBlob? && !s.PurgeRow? && !s.SelectDoomed?
    ensures Protected(Do(w, s), f, k, t0)
  {
    hide See, NewIds;
  }

  lemma ProtectedDo(w: World, s: Step, f: Id, k: Key, t0: Moment)
    requires Reachable(w) && FilesOk(w) && Protected(w, f, k, t0) && w.clock <= t0 + 7 * DAY - SECOND
    ensures Protected(Do(w, s), f, k, t0)
  {
    hide Reachable, Protected, DoRead, DoCommit, Tidy, RowsOk, TicketsOk, PurgersOk, MemoryOk, DoPurgeRow, Due;
    match s
    case Commit(t) => if t in w.pending && w.pending[t].Request? { ProtectedCommit(w, t, f, k, t0); }
    case Clean(t) => ProtectedClean(w, t, f, k, t0);
    case PurgeBlob(t) => ProtectedBlob(w, t, f, k, t0);
    case PurgeRow(t) => ProtectedRow(w, t, f, k, t0);
    case SelectDoomed(t, doomed) => ProtectedSelect(w, s, f, k, t0);
    case _ => ProtectedOther(w, s, f, k, t0);
  }

  lemma ClockGrows(w: World, s: Step)
    ensures w.clock <= Do(w, s).clock
  {
    hide See, Transact, NewIds, NoticeOf, Due, Held;
  }

  // ---- and a deleted one goes ----

  /** A second after those seven days the file can be chosen, and then its blob and its row go, and no other row. */
  lemma PurgeTakes(w: World, t: nat, f: Id, later: Moment)
    requires Reachable(w) && FilesOk(w) && t !in w.purgers && w.clock <= later
    requires f in w.db.files && w.db.files[f].deletedAt.Some? && w.db.files[f].deletedAt.value + 7 * DAY + SECOND <= later
    ensures
      var k := w.db.files[f].key;
      var u := Run(w, [Tick(later), SelectDoomed(t, [(f, k)]), PurgeBlob(t), PurgeRow(t)]);
      u.db == w.db.(files := w.db.files - {f}) && u.blobs == w.blobs - {k} && u.clock == later
  {
    hide Reachable, FilesOk, Do, Due;
    var k := w.db.files[f].key;
    var s0, s1, s2, s3 := Tick(later), SelectDoomed(t, [(f, k)]), PurgeBlob(t), PurgeRow(t);
    var w1 := Do(w, s0);
    assert w1 == w.(clock := later) by { Ticked(w, later); }
    assert Due(w1.db, (f, k), later) by { DueLater(w1.db, f, later); }
    var w2 := Do(w1, s1);
    assert w2 == w1.(purgers := w1.purgers[t := Purger([(f, k)], false)]) by { Chosen(w1, t, (f, k)); }
    var w3 := Do(w2, s2);
    assert w3 == w2.(blobs := w2.blobs - {k}, purgers := w2.purgers[t := Purger([(f, k)], true)]) by { BlobPurged(w2, t, (f, k)); }
    ReachableDo(w, s0);
    FilesDo(w, s0);
    ReachableDo(w1, s1);
    FilesDo(w1, s1);
    FilesDo(w2, s2);
    RowPurged(w3, t, (f, k));
    Closing.RunFour(w, s0, s1, s2, s3);
  }

  lemma Ticked(w: World, later: Moment)
    requires w.clock <= later
    ensures Do(w, Tick(later)) == w.(clock := later)
  {
  }

  lemma DueLater(db: Db, f: Id, later: Moment)
    requires f in db.files && db.files[f].deletedAt.Some? && db.files[f].deletedAt.value + 7 * DAY + SECOND <= later
    ensures Due(db, (f, db.files[f].key), later)
  {
    hide Before, NotAfter;
    WithinASecond(db.files[f].deletedAt.value, later - 7 * DAY);
  }

  lemma Chosen(w: World, t: nat, x: (Id, Key))
    requires t !in w.purgers && Due(w.db, x, w.clock)
    ensures Do(w, SelectDoomed(t, [x])) == w.(purgers := w.purgers[t := Purger([x], false)])
  {
    hide Due;
  }

  lemma BlobPurged(w: World, t: nat, x: (Id, Key))
    requires t in w.purgers && w.purgers[t] == Purger([x], false)
    ensures Do(w, PurgeBlob(t)) == w.(blobs := w.blobs - {x.1}, purgers := w.purgers[t := Purger([x], true)])
  {
  }

  lemma RowPurged(w: World, t: nat, x: (Id, Key))
    requires FilesOk(w) && t in w.purgers && w.purgers[t] == Purger([x], true)
    ensures
      var v := Do(w, PurgeRow(t));
      v.db == w.db.(files := w.db.files - {x.0}) && v.blobs == w.blobs && v.clock == w.clock
  {
    hide FilesOk, Held;
    RowGoes(w, t);
  }

  // ---- the walk ----

  /** What the walk has still to visit: a directory, by the key prefix it stands for, or a blob. */
  datatype Node = Dir(prefix: string, depth: nat) | Leaf(key: Key)

  datatype Walk = Walk(todo: seq<Node>, archived: seq<Key>, stopped: Option<Key>)

  /** Directories stay once made; blobs come and go. */
  ghost predicate Child(w: World, d: Node, n: Node)
    requires d.Dir?
  {
    if d.depth < 2 then
      && n.Dir? && n.depth == d.depth + 1 && |n.prefix| == 2 * n.depth
      && exists k :: k in w.usedKeys && d.prefix <= k && n.prefix <= k
    else n.Leaf? && n.key in w.blobs && d.prefix <= n.key
  }

  function NameOf(n: Node): string { if n.Dir? then n.prefix else n.key }

  /** A directory listing names every child, sorted by name. */
  ghost predicate Listing(w: World, d: Node, ns: seq<Node>)
    requires d.Dir?
  {
    && (forall n :: n in ns <==> Child(w, d, n))
    && (forall i, j | 0 <= i < j < |ns| :: Less(NameOf(ns[i]), NameOf(ns[j])))
  }

  lemma ListedOnce(ns: seq<Node>, i: nat, j: nat)
    requires i < j < |ns| && Less(NameOf(ns[i]), NameOf(ns[j]))
    ensures ns[i] != ns[j]
  {
    LessIrreflexive(NameOf(ns[i]));
  }

  /** Visiting the next node: list a directory, archive a blob, or stop quietly when it is gone. */
  ghost function Visited(w: World, b: Walk, listing: seq<Node>): Walk {
    if b.stopped.Some? || b.todo == [] then b
    else match b.todo[0]
      case Dir(_, _) => if Listing(w, b.todo[0], listing) then b.(todo := listing + b.todo[1..]) else b
      case Leaf(k) =>
        if k in w.blobs then b.(todo := b.todo[1..], archived := b.archived + [k])
        else b.(todo := b.todo[1..], stopped := Some(k))
  }

  datatype Both = Both(world: World, walk: Walk)
  datatype Action = Server(step: Step) | Visit(listing: seq<Node>)

  ghost function Act(x: Both, a: Action): Both {
    match a
    case Server(s) => x.(world := Do(x.world, s))
    case Visit(listing) => x.(walk := Visited(x.world, x.walk, listing))
  }

  ghost function Acts(x: Both, actions: seq<Action>): Both
    decreases |actions|
  {
    if actions == [] then x else Acts(Act(x, actions[0]), actions[1..])
  }

  /** The walk right after the snapshot. */
  function Begun(w: World): Both { Both(w, Walk([Dir("", 0)], [], None)) }

  predicate Covers(n: Node, k: Key) {
    match n
    case Dir(prefix, _) => prefix <= k
    case Leaf(key) => key == k
  }

  ghost predicate Waiting(b: Walk, k: Key) { exists n :: n in b.todo && Covers(n, k) }

  predicate NodeOk(n: Node) { n.Dir? ==> n.depth <= 2 && |n.prefix| == 2 * n.depth }

  ghost predicate KeysValid(w: World) { w.blobs <= w.usedKeys && forall k | k in w.usedKeys :: ValidKey(k) }

  /** Each key comes up in the walk once. */
  ghost predicate OnceEach(b: Walk) {
    && (forall n | n in b.todo :: NodeOk(n))
    && (forall i, j, k | 0 <= i < j < |b.todo| && Covers(b.todo[i], k) :: !Covers(b.todo[j], k))
    && (forall n, k | n in b.todo && k in b.archived :: !Covers(n, k))
  }

  lemma KeysValidDo(w: World, s: Step)
    requires KeysValid(w)
    ensures KeysValid(Do(w, s))
  {
    hide See, Transact, NewIds, NoticeOf, Due, Held, ValidKey;
  }

  /** The child of a directory under which a key lies. */
  function ChildFor(d: Node, k: Key): Node
    requires d.Dir? && d.depth <= 2 && |k| == 32
  {
    if d.depth < 2 then Dir(k[..2 * d.depth + 2], d.depth + 1) else Leaf(k)
  }

  lemma ChildCovers(w: World, d: Node, k: Key)
    requires KeysValid(w) && d.Dir? && NodeOk(d) && Covers(d, k) && k in w.usedKeys && k in w.blobs
    ensures |k| == 32 && Child(w, d, ChildFor(d, k)) && Covers(ChildFor(d, k), k)
  {
    assert ValidKey(k);
    if d.depth < 2 {
      assert k[..2 * d.depth + 2] <= k;
    }
  }

  /** Two children of one directory share no key, and every child's keys are the directory's. */
  lemma ChildrenApart(w: World, d: Node, n: Node, m: Node, k: Key)
    requires KeysValid(w) && d.Dir? && NodeOk(d) && Child(w, d, n) && Covers(n, k)
    ensures NodeOk(n) && Covers(d, k)
    ensures Child(w, d, m) && Covers(m, k) ==> n == m
  {
    if d.depth < 2 {
      var l :| l in w.usedKeys && d.prefix <= l && n.prefix <= l;
      assert d.prefix == l[..|d.prefix|] && n.prefix == l[..|n.prefix|] && n.prefix == k[..|n.prefix|];
      assert d.prefix == n.prefix[..|d.prefix|];
      if Child(w, d, m) && Covers(m, k) {
        assert m.prefix == k[..|m.prefix|];
      }
    }
  }

  lemma ChildOk(w: World, d: Node, n: Node)
    requires d.Dir? && NodeOk(d) && Child(w, d, n)
    ensures NodeOk(n)
  {
  }

  lemma VisitApart(w: World, b: Walk, listing: seq<Node>)
    requires KeysValid(w) && OnceEach(b)
    ensures OnceEach(Visited(w, b, listing))
  {
    var c := Visited(w, b, listing);
    if c != b && b.todo[0].Dir? {
      VisitDirApart(w, b, listing);
    }
  }

  lemma VisitDirApart(w: World, b: Walk, listing: seq<Node>)
    requires KeysValid(w) && OnceEach(b) && b.todo != [] && b.todo[0].Dir? && Listing(w, b.todo[0], listing)
    ensures OnceEach(b.(todo := listing + b.todo[1..]))
  {
    hide Child, NodeOk, Covers, KeysValid;
    var d, rest := b.todo[0], b.todo[1..];
    var todo := listing + rest;
    assert d in b.todo;
    forall n | n in todo
      ensures NodeOk(n)
    {
      if n in listing {
        ChildOk(w, d, n);
      } else {
        assert n in b.todo;
      }
    }
    forall i, j, k | 0 <= i < j < |todo| && Covers(todo[i], k)
      ensures !Covers(todo[j], k)
    {
      if i < |listing| {
        assert listing[i] in listing;
        ChildrenApart(w, d, todo[i], todo[j], k);
        if j < |listing| {
          assert listing[j] in listing;
          ListedOnce(listing, i, j);
        } else {
          assert todo[j] == b.todo[j - |listing| + 1];
        }
      } else {
        assert todo[i] == b.todo[i - |listing| + 1] && todo[j] == b.todo[j - |listing| + 1];
      }
    }
    forall n, k | n in todo && k in b.archived
      ensures !Covers(n, k)
    {
      if n in listing {
        if Covers(n, k) {
          ChildrenApart(w, d, n, n, k);
        }
      } else {
        assert n in b.todo;
      }
    }
  }

  /** A key on disk that was waiting is still waiting or archived after a visit. */
  lemma VisitWaiting(w: World, b: Walk, listing: seq<Node>, k: Key)
    requires KeysValid(w) && OnceEach(b) && k in w.blobs && k in w.usedKeys
    requires k in b.archived || Waiting(b, k)
    ensures
      var c := Visited(w, b, listing);
      k in c.archived || Waiting(c, k)
  {
    var c := Visited(w, b, listing);
    if c != b && k !in b.archived {
      hide Child, NodeOk, KeysValid, Covers;
      var n :| n in b.todo && Covers(n, k);
      if n != b.todo[0] {
        assert n in b.todo[1..];
        assert n in c.todo;
      } else if n.Dir? {
        ChildCovers(w, n, k);
        assert ChildFor(n, k) in listing;
        assert ChildFor(n, k) in c.todo;
      } else {
        LeafCovers(n, k);
      }
    }
  }

  lemma LeafCovers(n: Node, k: Key)
    requires n.Leaf? && Covers(n, k)
    ensures n.key == k
  {
  }

  // ---- what the archive holds ----

  ghost predicate WalkOk(x: Both, f: Id, k: Key, t0: Moment) {
    && Reachable(x.world) && FilesOk(x.world) && KeysValid(x.world) && OnceEach(x.walk)
    && (x.world.clock <= t0 + 7 * DAY - SECOND ==>
          Protected(x.world, f, k, t0) && (k in x.walk.archived || Waiting(x.walk, k)))
  }

  lemma WalkDo(x: Both, a: Action, f: Id, k: Key, t0: Moment)
    requires WalkOk(x, f, k, t0)
    ensures WalkOk(Act(x, a), f, k, t0)
  {
    hide Reachable, FilesOk, KeysValid, OnceEach, Protected, Waiting, Do, Visited;
    match a
    case Server(s) =>
      ReachableDo(x.world, s);
      FilesDo(x.world, s);
      KeysValidDo(x.world, s);
      ClockGrows(x.world, s);
      if x.world.clock <= t0 + 7 * DAY - SECOND {
        ProtectedDo(x.world, s, f, k, t0);
      }
    case Visit(listing) =>
      VisitApart(x.world, x.walk, listing);
      if x.world.clock <= t0 + 7 * DAY - SECOND {
        ProtectedUsed(x.world, f, k, t0);
        VisitWaiting(x.world, x.walk, listing, k);
      }
  }

  lemma ProtectedUsed(w: World, f: Id, k: Key, t0: Moment)
    requires FilesOk(w) && Protected(w, f, k, t0)
    ensures k in w.blobs && k in w.usedKeys
  {
    hide Tidy, TicketsOk, PurgersOk, MemoryOk;
  }

  lemma {:induction false} WalkActs(x: Both, actions: seq<Action>, f: Id, k: Key, t0: Moment)
    requires WalkOk(x, f, k, t0)
    ensures WalkOk(Acts(x, actions), f, k, t0)
    decreases |actions|
  {
    hide WalkOk, Act;
    if actions != [] {
      WalkDo(x, actions[0], f, k, t0);
      WalkActs(Act(x, actions[0]), actions[1..], f, k, t0);
    }
  }

  lemma {:induction false} KeysValidRun(w: World, steps: seq<Step>)
    requires KeysValid(w)
    ensures KeysValid(Run(w, steps))
    decreases |steps|
  {
    hide Do, KeysValid;
    if steps != [] {
      KeysValidDo(w, steps[0]);
      KeysValidRun(Do(w, steps[0]), steps[1..]);
    }
  }

  lemma WalkBegins(clock: Moment, before: seq<Step>, f: Id)
    ensures
      var w := Run(Start(clock), before);
      Live(w.db, f) ==> WalkOk(Begun(w), f, w.db.files[f].key, w.clock)
  {
    hide Run, Reachable, FilesOk, Protected, KeysValid;
    StartReachable(clock);
    StartFiles(clock);
    FilesRun(Start(clock), before);
    assert KeysValid(Start(clock)) by { NoKeys(clock); }
    KeysValidRun(Start(clock), before);
    var w := Run(Start(clock), before);
    if Live(w.db, f) {
      LiveIsProtected(w, f);
      assert Dir("", 0) in Begun(w).walk.todo && Covers(Dir("", 0), w.db.files[f].key);
    }
  }

  lemma NoKeys(clock: Moment)
    ensures KeysValid(Start(clock))
  {
  }

  /** The archive has the blob of every row that is live in the snapshot. */
  ghost predicate Complete(snapshot: Db, b: Walk) {
    forall f | Live(snapshot, f) :: snapshot.files[f].key in b.archived
  }

  /**
   * From any reachable state, with any steps of the server in between, and for seven days less a second
   * after the snapshot: each blob of a row that was live in it is archived or still waiting, never both.
   * So a walk that has nothing left to visit has a complete archive.
   */
  lemma ArchivedOrWaiting(clock: Moment, before: seq<Step>, actions: seq<Action>)
    ensures
      var w := Run(Start(clock), before);
      var x := Acts(Begun(w), actions);
      x.world.clock <= w.clock + 7 * DAY - SECOND ==>
        && (forall f | Live(w.db, f) :: w.db.files[f].key in x.walk.archived <==> !Waiting(x.walk, w.db.files[f].key))
        && (x.walk.todo == [] ==> Complete(w.db, x.walk))
  {
    hide Run, Acts, Reachable, FilesOk, Protected, KeysValid;
    var w := Run(Start(clock), before);
    var x := Acts(Begun(w), actions);
    if x.world.clock <= w.clock + 7 * DAY - SECOND {
      forall f | Live(w.db, f)
        ensures w.db.files[f].key in x.walk.archived <==> !Waiting(x.walk, w.db.files[f].key)
      {
        WalkBegins(clock, before, f);
        WalkActs(Begun(w), actions, f, w.db.files[f].key, w.clock);
      }
    }
  }

  // ---- when does the walk stop early? ----

  /** Only a purge and the cleanup of a failed upload take blobs away. */
  predicate Removes(a: Action) { a.Server? && (a.step.PurgeBlob? || a.step.Clean?) }

  ghost predicate LeavesThere(x: Both) {
    x.walk.stopped.None? && forall n | n in x.walk.todo && n.Leaf? :: n.key in x.world.blobs
  }

  lemma BlobsStay(w: World, s: Step)
    requires !s.PurgeBlob? && !s.Clean?
    ensures w.blobs <= Do(w, s).blobs
  {
    hide See, Transact, NewIds, NoticeOf, Due, Held;
  }

  lemma LeavesThereDo(x: Both, a: Action)
    requires LeavesThere(x) && !Removes(a)
    ensures LeavesThere(Act(x, a))
  {
    hide Do;
    if a.Server? {
      BlobsStay(x.world, a.step);
    } else {
      VisitLeaves(x.world, x.walk, a.listing);
    }
  }

  lemma VisitLeaves(w: World, b: Walk, listing: seq<Node>)
    requires LeavesThere(Both(w, b))
    ensures LeavesThere(Both(w, Visited(w, b, listing)))
  {
    var c := Visited(w, b, listing);
    forall n | n in c.todo && n.Leaf?
      ensures n.key in w.blobs
    {
      if n !in b.todo {
        assert n in listing && Child(w, b.todo[0], n);
      }
    }
  }

  /** A backup during which no blob is removed never stops early, whatever else the server does. */
  lemma {:induction false} NeverStops(x: Both, actions: seq<Action>)
    requires LeavesThere(x) && forall a | a in actions :: !Removes(a)
    ensures LeavesThere(Acts(x, actions))
    decreases |actions|
  {
    hide Act, LeavesThere;
    if actions != [] {
      LeavesThereDo(x, actions[0]);
      NeverStops(Act(x, actions[0]), actions[1..]);
    }
  }

  /** Once stopped, a walk archives nothing more. */
  lemma {:induction false} StoppedForGood(x: Both, actions: seq<Action>)
    requires x.walk.stopped.Some?
    ensures Acts(x, actions).walk == x.walk
    decreases |actions|
  {
    hide Do;
    if actions != [] {
      StoppedForGood(Act(x, actions[0]), actions[1..]);
    }
  }

  /**
   * Whenever a purge deletes the blob that the walk has listed and visits next, the backup ends there:
   * no live blob that was waiting behind it is in the archive, whatever happens next, and Write
   * returns no error.
   */
  lemma VanishedFileCutsBackup(x: Both, t: nat, f: Id, snapshot: Db, later: seq<Action>)
    requires OnceEach(x.walk) && x.walk.stopped.None? && |x.walk.todo| > 0
    requires t in x.world.purgers && x.world.purgers[t].doomed != [] && !x.world.purgers[t].blobGone
    requires x.walk.todo[0] == Leaf(x.world.purgers[t].doomed[0].1)
    requires Live(snapshot, f) && exists n :: n in x.walk.todo[1..] && Covers(n, snapshot.files[f].key)
    ensures
      var end := Acts(x, [Server(PurgeBlob(t)), Visit([])] + later).walk;
      end.stopped.Some? && end.archived == x.walk.archived && !Complete(snapshot, end)
  {
    hide OnceEach;
    var y := Act(Act(x, Server(PurgeBlob(t))), Visit([]));
    assert y.walk == Walk(x.walk.todo[1..], x.walk.archived, Some(x.walk.todo[0].key));
    assert [Server(PurgeBlob(t)), Visit([])] + later == [Server(PurgeBlob(t))] + ([Visit([])] + later);
    ActsAppend(x, Server(PurgeBlob(t)), [Visit([])] + later);
    ActsAppend(Act(x, Server(PurgeBlob(t))), Visit([]), later);
    StoppedForGood(y, later);
    NotArchived(x.walk, f, snapshot);
  }

  lemma NotArchived(b: Walk, f: Id, snapshot: Db)
    requires OnceEach(b) && |b.todo| > 0
    requires Live(snapshot, f) && exists n :: n in b.todo[1..] && Covers(n, snapshot.files[f].key)
    ensures snapshot.files[f].key !in b.archived
  {
    var n :| n in b.todo[1..] && Covers(n, snapshot.files[f].key);
    assert n in b.todo;
  }

  // ---- a run in which it happens ----

  /** A project whose invoice has the document KEY_B, while the upload KEY_A is under way. */
  function Uploads(clock: Moment): World {
    Start(clock).(
      db := Schema.EMPTY.(projects := map[1 := Project(1, false)],
                          invoices := map[2 := Invoice(1, InvoiceDraft, Some(3))],
                          files := map[3 := File(KEY_B, None)]),
      blobs := {KEY_A, KEY_B}, usedKeys := {KEY_A, KEY_B}, usedIds := {1, 2, 3},
      pending := map[0 := Uploaded(KEY_A)])
  }

  lemma UploadsReached(clock: Moment)
    ensures
      var steps := [Read(0, AddProject(1, 1)), Commit(0), Step.Upload(0, KEY_A), Step.Upload(1, KEY_B)]
        + [Read(1, AddInvoice(1, 2, 3)), Commit(1)];
      Run(Start(clock), steps) == Uploads(clock)
  {
    hide Do, ValidKey;
    var s1 := [Read(0, AddProject(1, 1)), Commit(0), Step.Upload(0, KEY_A), Step.Upload(1, KEY_B)];
    var s2 := [Read(1, AddInvoice(1, 2, 3)), Commit(1)];
    var w0 := Start(clock);
    RunAppend(w0, s1, s2);
    Closing.RunFour(w0, s1[0], s1[1], s1[2], s1[3]);
    Closing.ReadProject(w0);
    Closing.CommitProject(Do(w0, s1[0]));
    var w2 := Do(Do(w0, s1[0]), s1[1]);
    TwoUploads(w2);
    var w4 := Do(Do(w2, s1[2]), s1[3]);
    Closing.RunTwo(w4, s2[0], s2[1]);
    AddsInvoice(w4);
    assert w0.usedIds + {1} + {2, 3} == {1, 2, 3};
  }

  lemma AddsInvoice(w: World)
    requires w.db == Schema.EMPTY.(projects := map[1 := Project(1, false)]) && w.usedIds == {1}
    requires w.pending == map[0 := Uploaded(KEY_A), 1 := Uploaded(KEY_B)] && w.notices == []
    ensures Do(Do(w, Read(1, AddInvoice(1, 2, 3))), Commit(1)) ==
      w.(db := w.db.(invoices := map[2 := Invoice(1, InvoiceDraft, Some(3))], files := map[3 := File(KEY_B, None)]),
         pending := map[0 := Uploaded(KEY_A)], usedIds := {1, 2, 3})
  {
    var v := Do(w, Read(1, AddInvoice(1, 2, 3)));
    assert v == w.(pending := w.pending[1 := Request(AddInvoice(1, 2, 3), Some(KEY_B), Nothing)], usedIds := {1, 2, 3});
    assert v.pending - {1} == map[0 := Uploaded(KEY_A)];
  }

  /** What the walk meets there, while the upload fails and its blob is cleaned up. */
  function CutActions(): seq<Action> {
    [Visit([Dir("aa", 1)]), Visit([Dir("aaaa", 2)]), Visit([Leaf(KEY_A), Leaf(KEY_B)])]
    + [Server(GiveUp(0)), Server(Clean(0)), Visit([])]
  }

  lemma ActsAppend(x: Both, a: Action, more: seq<Action>)
    ensures Acts(x, [a] + more) == Acts(Act(x, a), more)
  {
    assert ([a] + more)[1..] == more;
  }

  /** The consistent backup that the documentation promises is not what the code gives: here the snapshot has a live row and the archive has no blob. */
  lemma BackupCanMissLiveFile(clock: Moment)
    ensures
      var w := Uploads(clock);
      var end := Acts(Begun(w), CutActions());
      Live(w.db, 3) && end.walk.stopped == Some(KEY_A) && end.walk.archived == [] && !Complete(w.db, end.walk)
  {
    hide Listing, Do;
    var w := Uploads(clock);
    Listings(w);
    var x0 := Begun(w);
    var a := CutActions();
    var x3 := x0.(walk := Walk([Leaf(KEY_A), Leaf(KEY_B)], [], None));
    assert a == [a[0]] + ([a[1]] + ([a[2]] + ([a[3]] + ([a[4]] + ([a[5]] + [])))));
    ActsAppend(x0, a[0], a[1..]);
    assert Act(x0, a[0]).walk.todo == [Dir("aa", 1)];
    var x1 := Act(x0, a[0]);
    assert a[1..] == [a[1]] + a[2..] && a[2..] == [a[2]] + a[3..] && a[3..] == [a[3]] + a[4..] && a[4..] == [a[4]] + a[5..] && a[5..] == [a[5]] + [];
    ActsAppend(x1, a[1], a[2..]);
    var x2 := Act(x1, a[1]);
    assert x2.walk.todo == [Dir("aaaa", 2)];
    ActsAppend(x2, a[2], a[3..]);
    assert Act(x2, a[2]) == x3;
    ActsAppend(x3, a[3], a[4..]);
    ActsAppend(Act(x3, a[3]), a[4], a[5..]);
    CleansUp(w);
    var x5 := Act(Act(x3, a[3]), a[4]);
    ActsAppend(x5, a[5], []);
  }

  lemma CleansUp(w: World)
    requires 0 in w.pending && w.pending[0] == Uploaded(KEY_A)
    ensures Do(Do(w, GiveUp(0)), Clean(0)).blobs == w.blobs - {KEY_A}
  {
  }

  lemma KeysInOrder()
    ensures Less(KEY_A, KEY_B) && KEY_A != KEY_B
  {
    assert KEY_A[..31] == KEY_B[..31] && KEY_A[31] < KEY_B[31];
    assert SmallerAt(KEY_A, KEY_B, 31);
    SmallerIsLess(KEY_A, KEY_B, 31);
  }

  lemma Listings(w: World)
    requires w.usedKeys == {KEY_A, KEY_B} && w.blobs == {KEY_A, KEY_B}
    ensures Listing(w, Dir("", 0), [Dir("aa", 1)])
    ensures Listing(w, Dir("aa", 1), [Dir("aaaa", 2)])
    ensures Listing(w, Dir("aaaa", 2), [Leaf(KEY_A), Leaf(KEY_B)])
  {
    hide Less, Child;
    KeysInOrder();
    forall n: Node
      ensures Child(w, Dir("", 0), n) <==> n == Dir("aa", 1)
      ensures Child(w, Dir("aa", 1), n) <==> n == Dir("aaaa", 2)
      ensures Child(w, Dir("aaaa", 2), n) <==> n == Leaf(KEY_A) || n == Leaf(KEY_B)
    {
      DirChildren(w, n);
      LeafChildren(w, n);
    }
  }

  lemma DirChildren(w: World, n: Node)
    requires w.usedKeys == {KEY_A, KEY_B}
    ensures Child(w, Dir("", 0), n) <==> n == Dir("aa", 1)
    ensures Child(w, Dir("aa", 1), n) <==> n == Dir("aaaa", 2)
  {
    assert "aa" <= KEY_A && "aaaa" <= KEY_A && "" <= KEY_A;
    if n.Dir? && |n.prefix| <= 4 && (n.prefix <= KEY_A || n.prefix <= KEY_B) {
      assert KEY_A[..4] == KEY_B[..4] == "aaaa";
      assert n.prefix == "aaaa"[..|n.prefix|];
      assert "aaaa"[..2] == "aa" && "aaaa"[..4] == "aaaa";
    }
  }

  lemma LeafChildren(w: World, n: Node)
    requires w.blobs == {KEY_A, KEY_B}
    ensures Child(w, Dir("aaaa", 2), n) <==> n == Leaf(KEY_A) || n == Leaf(KEY_B)
  {
    assert "aaaa" <= KEY_A && "aaaa" <= KEY_B;
  }
}
