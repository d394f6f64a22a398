/**
 * The walk of a backup (internal/backup/backup.go) visits stored objects in the order of their keys, so a
 * walk that stops at a vanished file has archived exactly the live objects with smaller keys. This gives
 * the exact condition for a complete archive.
 */
module WalkOrder {
  import opened Basics
  import opened Timestamps
  import opened JobTable
  import opened Schema
  import opened Requests
  import opened FileTables
  import opened Backup

  /** Texts of one length that are ordered stay so whatever follows them. */
  lemma {:induction false} LessExtends(a: string, b: string, x: string, y: string)
    requires |a| == |b| && Less(a, b) && a <= x && b <= y
    ensures Less(x, y)
  {
    assert a[0] == x[0] && b[0] == y[0];
    if a[0] == b[0] {
      LessExtends(a[1..], b[1..], x[1..], y[1..]);
    }
  }

  // ---- what was visited comes before what waits ----

  ghost predicate Ordered(b: Walk) {
    && (forall i, j, k, l | 0 <= i < j < |b.todo| && Covers(b.todo[i], k) && Covers(b.todo[j], l) :: Less(k, l))
    && (forall n, k, l | n in b.todo && k in b.archived && Covers(n, l) :: Less(k, l))
  }

  /** A walk that stopped did so between what it archived and what was waiting. */
  ghost predicate StoppedBetween(b: Walk) {
    b.stopped.Some? ==>
      && (forall k | k in b.archived :: Less(k, b.stopped.value))
      && (forall k | Waiting(b, k) :: Less(b.stopped.value, k))
  }

  ghost predicate InOrder(b: Walk) { OnceEach(b) && Ordered(b) && StoppedBetween(b) }

  /** The children of a directory cover only its keys, and in the order of the listing. */
  lemma ListingOrdered(w: World, d: Node, ns: seq<Node>, i: nat, j: nat, k: Key, l: Key)
    requires KeysValid(w) && d.Dir? && NodeOk(d) && Listing(w, d, ns) && i < j < |ns|
    requires Covers(ns[i], k) && Covers(ns[j], l)
    ensures Less(k, l)
  {
    hide Less;
    assert ns[i] in ns && ns[j] in ns;
    assert Child(w, d, ns[i]) && Child(w, d, ns[j]);
    SameDepth(w, d, ns[i], ns[j]);
    LessExtends(NameOf(ns[i]), NameOf(ns[j]), k, l);
  }

  lemma SameDepth(w: World, d: Node, n: Node, m: Node)
    requires KeysValid(w) && d.Dir? && Child(w, d, n) && Child(w, d, m)
    ensures |NameOf(n)| == |NameOf(m)|
    ensures forall k | Covers(n, k) :: NameOf(n) <= k
    ensures forall k | Covers(m, k) :: NameOf(m) <= k
  {
    if d.depth >= 2 {
      assert ValidKey(n.key) && ValidKey(m.key);
    }
  }

  lemma VisitDirOrdered(w: World, b: Walk, listing: seq<Node>)
    requires KeysValid(w) && OnceEach(b) && Ordered(b) && b.todo != [] && b.todo[0].Dir? && Listing(w, b.todo[0], listing)
    ensures Ordered(b.(todo := listing + b.todo[1..]))
  {
    hide Child, NodeOk, Covers, KeysValid, Less, Listing;
    var d, rest := b.todo[0], b.todo[1..];
    var todo := listing + rest;
    assert d in b.todo;
    ListingCovers(w, d, listing);
    forall i, j, k, l | 0 <= i < j < |todo| && Covers(todo[i], k) && Covers(todo[j], l)
      ensures Less(k, l)
    {
      if j < |listing| {
        ListingOrdered(w, d, listing, i, j, k, l);
      } else {
        assert todo[j] == b.todo[j - |listing| + 1];
        if i < |listing| {
          assert todo[i] in listing && Covers(b.todo[0], k);
        } else {
          assert todo[i] == b.todo[i - |listing| + 1];
        }
      }
    }
    forall n, k, l | n in todo && k in b.archived && Covers(n, l)
      ensures Less(k, l)
    {
      if n in listing {
        assert Covers(d, l);
      } else {
        assert n in b.todo;
      }
    }
  }

  lemma ListingCovers(w: World, d: Node, ns: seq<Node>)
    requires KeysValid(w) && d.Dir? && NodeOk(d) && Listing(w, d, ns)
    ensures forall n, k | n in ns && Covers(n, k) :: Covers(d, k)
  {
    hide Less, Covers;
    forall n, k | n in ns && Covers(n, k)
      ensures Covers(d, k)
    {
      ChildrenApart(w, d, n, n, k);
    }
  }

  lemma VisitLeafOrdered(w: World, b: Walk)
    requires OnceEach(b) && Ordered(b) && b.stopped.None? && b.todo != [] && b.todo[0].Leaf?
    ensures
      var c := Visited(w, b, []);
      Ordered(c) && StoppedBetween(c)
  {
    hide Less;
    var k, rest, c := b.todo[0].key, b.todo[1..], Visited(w, b, []);
    assert b.todo[0] in b.todo && Covers(b.todo[0], k);
    forall n, l | n in rest && Covers(n, l)
      ensures Less(k, l) && n in b.todo
    {
      var i :| 0 <= i < |rest| && rest[i] == n;
      assert b.todo[i + 1] == n;
    }
    assert c.todo == rest;
  }

  lemma VisitInOrder(w: World, b: Walk, listing: seq<Node>)
    requires KeysValid(w) && InOrder(b)
    ensures InOrder(Visited(w, b, listing))
  {
    hide OnceEach, Ordered, Listing;
    VisitApart(w, b, listing);
    if b.stopped.None? && b.todo != [] {
      if b.todo[0].Dir? {
        if Listing(w, b.todo[0], listing) {
          VisitDirOrdered(w, b, listing);
        }
      } else {
        VisitLeafOrdered(w, b);
      }
    }
  }

  lemma {:induction false} ActsInOrder(x: Both, actions: seq<Action>)
    requires KeysValid(x.world) && InOrder(x.walk)
    ensures KeysValid(Acts(x, actions).world) && InOrder(Acts(x, actions).walk)
    decreases |actions|
  {
    hide KeysValid, InOrder, Do, Visited;
    if actions != [] {
      match actions[0] {
        case Server(s) => KeysValidDo(x.world, s);
        case Visit(listing) => VisitInOrder(x.world, x.walk, listing);
      }
      ActsInOrder(Act(x, actions[0]), actions[1..]);
    }
  }

  lemma BegunInOrder(w: World)
    ensures InOrder(Begun(w).walk)
  {
  }

  // ---- the exact condition ----

  /** Write returns when nothing is left to visit, or at a vanished file. */
  predicate Ended(b: Walk) { b.todo == [] || b.stopped.Some? }

  /** The live blobs of the snapshot that sort before the file the walk stopped at. */
  ghost predicate AllBefore(snapshot: Db, k: Key) { forall f | Live(snapshot, f) :: Less(snapshot.files[f].key, k) }

  /**
   * A backup of the running server, ended within seven days less a second of its snapshot, is complete
   * exactly when no listed file had vanished at its turn, or the first that had sorts after every live
   * blob. When it stopped, it holds exactly the live blobs with smaller keys.
   */
  lemma CompleteExactly(clock: Moment, before: seq<Step>, actions: seq<Action>)
    ensures
      var w := Run(Start(clock), before);
      var x := Acts(Begun(w), actions);
      Ended(x.walk) && x.world.clock <= w.clock + 7 * DAY - SECOND ==>
        && (Complete(w.db, x.walk) <==> x.walk.stopped.None? || AllBefore(w.db, x.walk.stopped.value))
        && (x.walk.stopped.Some? ==>
              forall f | Live(w.db, f) :: w.db.files[f].key in x.walk.archived <==> Less(w.db.files[f].key, x.walk.stopped.value))
  {
    hide Run, Acts, Less, KeysValid, OnceEach, Ordered;
    var w := Run(Start(clock), before);
    var x := Acts(Begun(w), actions);
    NoKeys(clock);
    KeysValidRun(Start(clock), before);
    BegunInOrder(w);
    ActsInOrder(Begun(w), actions);
    if Ended(x.walk) && x.world.clock <= w.clock + 7 * DAY - SECOND {
      ArchivedOrWaiting(clock, before, actions);
      forall f | Live(w.db, f)
        ensures x.walk.stopped.Some? ==> (w.db.files[f].key in x.walk.archived <==> Less(w.db.files[f].key, x.walk.stopped.value))
      {
        var key := w.db.files[f].key;
        if x.walk.stopped.Some? && Waiting(x.walk, key) {
          LessAsymmetric(x.walk.stopped.value, key);
        }
      }
    }
  }

  // ---- when a walk stops ----

  /** A step takes the blob of a file that the walk has listed and not yet visited. */
  ghost predicate TakesListed(x: Both, a: Action) {
    && x.walk.stopped.None? && a.Server?
    && exists k :: Leaf(k) in x.walk.todo && k in x.world.blobs && k !in Do(x.world, a.step).blobs
  }

  ghost predicate EverTakesListed(x: Both, actions: seq<Action>)
    decreases |actions|
  {
    actions != [] && (TakesListed(x, actions[0]) || EverTakesListed(Act(x, actions[0]), actions[1..]))
  }

  lemma TakesMeans(x: Both, a: Action)
    requires LeavesThere(x)
    ensures TakesListed(x, a) <==> !LeavesThere(Act(x, a))
  {
    hide Do;
    if !a.Server? {
      VisitLeaves(x.world, x.walk, a.listing);
    }
  }

  /** Only a purge and the cleanup of a failed upload do that. */
  lemma TakesRemoves(x: Both, a: Action)
    ensures TakesListed(x, a) ==> Removes(a)
  {
    hide Do;
    if a.Server? && !Removes(a) {
      BlobsStay(x.world, a.step);
    }
  }

  /** A key is never used again, so a blob that went stays away. */
  lemma GoneStays(w: World, s: Step, k: Key)
    requires KeysValid(w) && k in w.usedKeys && k !in w.blobs
    ensures k in Do(w, s).usedKeys && k !in Do(w, s).blobs
  {
    hide See, Transact, NewIds, NoticeOf, Due, Held, ValidKey;
  }

  lemma {:induction false} GoneStops(x: Both, actions: seq<Action>, k: Key)
    requires KeysValid(x.world) && x.walk.stopped.None?
    requires Leaf(k) in x.walk.todo && k in x.world.usedKeys && k !in x.world.blobs
    ensures Ended(Acts(x, actions).walk) ==> Acts(x, actions).walk.stopped.Some?
    decreases |actions|
  {
    hide KeysValid, Do, Listing;
    if actions != [] {
      var y := Act(x, actions[0]);
      match actions[0] {
        case Server(s) =>
          KeysValidDo(x.world, s);
          GoneStays(x.world, s, k);
        case Visit(listing) =>
          assert x.walk.todo[0] == Leaf(k) || Leaf(k) in x.walk.todo[1..];
      }
      if y.walk.stopped.Some? {
        StoppedForGood(y, actions[1..]);
      } else {
        GoneStops(y, actions[1..], k);
      }
    }
  }

  lemma {:induction false} StopsExactly(x: Both, actions: seq<Action>)
    requires KeysValid(x.world) && LeavesThere(x)
    ensures Ended(Acts(x, actions).walk) ==> (Acts(x, actions).walk.stopped.Some? <==> EverTakesListed(x, actions))
    decreases |actions|
  {
    hide KeysValid, LeavesThere, TakesListed, Do, Visited;
    if actions == [] {
      assert LeavesThere(x) ==> x.walk.stopped.None? by { NotStopped(x); }
    } else {
      var y := Act(x, actions[0]);
      TakesMeans(x, actions[0]);
      if TakesListed(x, actions[0]) {
        TakenStops(x, actions[0], actions[1..]);
      } else {
        ActKeysValid(x, actions[0]);
        StopsExactly(y, actions[1..]);
      }
    }
  }

  lemma NotStopped(x: Both)
    requires LeavesThere(x)
    ensures x.walk.stopped.None?
  {
  }

  lemma ActKeysValid(x: Both, a: Action)
    requires KeysValid(x.world)
    ensures KeysValid(Act(x, a).world)
  {
    hide KeysValid, Do;
    if a.Server? {
      KeysValidDo(x.world, a.step);
    }
  }

  lemma TakenStops(x: Both, a: Action, later: seq<Action>)
    requires KeysValid(x.world) && TakesListed(x, a)
    ensures Ended(Acts(Act(x, a), later).walk) ==> Acts(Act(x, a), later).walk.stopped.Some?
  {
    hide Do, ValidKey;
    var k :| Leaf(k) in x.walk.todo && k in x.world.blobs && k !in Do(x.world, a.step).blobs;
    KeysValidDo(x.world, a.step);
    assert k in Do(x.world, a.step).usedKeys by { KeysGrow(x.world, a.step); }
    GoneStops(Act(x, a), later, k);
  }

  lemma KeysGrow(w: World, s: Step)
    ensures w.usedKeys <= Do(w, s).usedKeys
  {
    hide See, Transact, NewIds, NoticeOf, Due, Held, ValidKey;
  }

  /**
   * From any reachable state, with any steps of the server in between, a walk that has ended was cut short
   * exactly when, at some point, a step took a blob that the walk had listed and not yet visited.
   */
  lemma StoppedExactly(clock: Moment, before: seq<Step>, actions: seq<Action>)
    ensures
      var x := Begun(Run(Start(clock), before));
      Ended(Acts(x, actions).walk) ==> (Acts(x, actions).walk.stopped.Some? <==> EverTakesListed(x, actions))
  {
    hide Run, Acts, KeysValid, EverTakesListed;
    NoKeys(clock);
    KeysValidRun(Start(clock), before);
    StopsExactly(Begun(Run(Start(clock), before)), actions);
  }

  // ---- the walk can always go on ----

  ghost function Children(w: World, d: Node): set<Node>
    requires d.Dir?
  {
    if d.depth < 2 then
      set k | k in w.usedKeys && d.prefix <= k && |k| >= 2 * d.depth + 2 :: Dir(k[..2 * d.depth + 2], d.depth + 1)
    else set k | k in w.blobs && d.prefix <= k :: Leaf(k)
  }

  lemma ChildrenAre(w: World, d: Node, n: Node)
    requires KeysValid(w) && d.Dir? && NodeOk(d)
    ensures n in Children(w, d) <==> Child(w, d, n)
  {
    if d.depth < 2 {
      if Child(w, d, n) {
        var k :| k in w.usedKeys && d.prefix <= k && n.prefix <= k;
        assert ValidKey(k) && n.prefix == k[..2 * d.depth + 2];
      }
      forall k | k in w.usedKeys && d.prefix <= k && |k| >= 2 * d.depth + 2
        ensures k[..2 * d.depth + 2] <= k
      {
      }
    }
  }

  /** Nodes of one directory are told apart by their names. */
  ghost predicate Siblings(ns: set<Node>) {
    forall n, m | n in ns && m in ns && NameOf(n) == NameOf(m) :: n == m
  }

  lemma {:induction false} FirstOf(ns: set<Node>) returns (n: Node)
    requires ns != {} && Siblings(ns)
    ensures n in ns && forall m | m in ns && m != n :: Less(NameOf(n), NameOf(m))
    decreases |ns|
  {
    hide Less, NameOf;
    var x :| x in ns;
    if ns == {x} {
      n := x;
    } else {
      var rest := FirstOf(ns - {x});
      LessTotal(NameOf(x), NameOf(rest));
      if Less(NameOf(x), NameOf(rest)) {
        n := x;
        forall m | m in ns && m != n
          ensures Less(NameOf(n), NameOf(m))
        {
          if m != rest {
            LessTransitive(NameOf(x), NameOf(rest), NameOf(m));
          }
        }
      } else {
        n := rest;
      }
    }
  }

  lemma {:induction false} SortedListing(ns: set<Node>) returns (s: seq<Node>)
    requires Siblings(ns)
    ensures forall n :: n in s <==> n in ns
    ensures forall i, j | 0 <= i < j < |s| :: Less(NameOf(s[i]), NameOf(s[j]))
    decreases |ns|
  {
    hide Less, NameOf;
    if ns == {} {
      s := [];
    } else {
      var first := FirstOf(ns);
      var rest := SortedListing(ns - {first});
      s := [first] + rest;
      forall i, j | 0 <= i < j < |s|
        ensures Less(NameOf(s[i]), NameOf(s[j]))
      {
        assert s[j] in rest;
      }
    }
  }

  /** Every directory the walk comes to has a sorted listing, so a walk that has not ended can go on. */
  lemma ListingExists(w: World, d: Node) returns (ns: seq<Node>)
    requires KeysValid(w) && d.Dir? && NodeOk(d)
    ensures Listing(w, d, ns)
  {
    hide Less, Child, KeysValid;
    forall n
      ensures n in Children(w, d) <==> Child(w, d, n)
    {
      ChildrenAre(w, d, n);
    }
    assert Siblings(Children(w, d)) by { AreSiblings(w, d); }
    ns := SortedListing(Children(w, d));
  }

  lemma AreSiblings(w: World, d: Node)
    requires d.Dir?
    ensures Siblings(Children(w, d))
  {
  }
}
