/**
 * Any number of workers on one jobs table (internal/jobs/jobs.go, RunOne). A worker claims in one
 * transaction, runs its handler, and finishes in another; it may crash in between, and its lock
 * may go stale and be reclaimed while it is still alive. The steps below interleave freely, and
 * every theorem is about all sequences of steps.
 */
module Workers {
  import opened Basics
  import opened Timestamps
  import opened JobTable
  import opened DedupeKeys

  /** What a worker remembers between its two transactions. */
  datatype Flight = Flight(id: nat, attempts: nat, maxAttempts: nat, at: Moment)

  /** The last three fields are history: they record what happened and influence nothing. */
  datatype World = World(
    table: Table,
    flights: map<nat, Flight>,
    staleLock: Duration,
    clock: Moment,
    reclaims: map<nat, nat>,
    retried: map<nat, set<nat>>,
    scheduled: seq<(string, Instant)>)

  datatype Step =
    | Tick(now: Moment)
    | Enqueue(kind: string, key: string, runAt: Moment, maxAttempts: int)
    | Schedule(every: Recurring)
    | Claim(worker: nat, now: Moment)
    | Complete(worker: nat, result: Outcome)
    | Crash(worker: nat)
    | Cleanup(now: Moment)

  function Start(staleLock: Duration, clock: Moment): World {
    World(EMPTY, map[], staleLock, clock, map[], map[], [])
  }

  function Reclaims(w: World, id: nat): nat { if id in w.reclaims then w.reclaims[id] else 0 }
  function Retried(w: World, id: nat): set<nat> { if id in w.retried then w.retried[id] else {} }

  ghost function Take(w: World, worker: nat, now: Moment, id: nat): World
    requires id in w.table.rows
  {
    var j := w.table.rows[id];
    w.(table := Lock(w.table, id, now, j.attempts + 1),
       flights := w.flights[worker := Flight(id, j.attempts + 1, j.maxAttempts, now)],
       reclaims := if j.lockedAt.Some? then w.reclaims[id := Reclaims(w, id) + 1] else w.reclaims)
  }

  ghost function Land(w: World, worker: nat, result: Outcome): World
    requires worker in w.flights
  {
    var f := w.flights[worker];
    w.(table := Finish(w.table, f.id, f.attempts, f.maxAttempts, result, w.clock),
       flights := w.flights - {worker},
       retried := if result.Failed? && f.attempts < f.maxAttempts
                  then w.retried[f.id := Retried(w, f.id) + {f.attempts}] else w.retried)
  }

  /** One recurring job of the schedule transaction. */
  ghost function Recur(w: World, r: Recurring): World {
    var b := Truncate(w.clock, r.interval);
    var t := Insert(w.table, r.kind, EveryKey(r.kind, Unix(b)), b, DEFAULT_ATTEMPTS);
    w.(table := t, scheduled := if t == w.table then w.scheduled else w.scheduled + [(r.kind, b)])
  }

  /** A step that is not possible changes nothing. */
  ghost function Do(w: World, s: Step): World {
    match s
    case Tick(now) => w.(clock := now)
    case Enqueue(kind, key, runAt, n) => w.(table := Insert(w.table, kind, key, runAt, AttemptsOrDefault(n)))
    case Schedule(r) => Recur(w, r)
    case Claim(worker, now) =>
      var stale := now - w.staleLock;
      if worker !in w.flights && exists id :: Selected(w.table.rows, now, stale, id)
      then
        var id :| Selected(w.table.rows, now, stale, id);
        Take(w, worker, now, id)
      else w
    case Complete(worker, result) => if worker in w.flights then Land(w, worker, result) else w
    case Crash(worker) => w.(flights := w.flights - {worker})
    case Cleanup(now) => w.(table := Purge(w.table, now))
  }

  ghost function Run(w: World, steps: seq<Step>): World
    decreases |steps|
  {
    if steps == [] then w else Run(Do(w, steps[0]), steps[1..])
  }

  lemma {:induction false} RunAppend(w: World, a: seq<Step>, b: seq<Step>)
    ensures Run(w, a + b) == Run(Run(w, a), b)
    decreases |a|
  {
    if a == [] {
      assert a + b == b;
    } else {
      assert (a + b)[1..] == a[1..] + b;
      RunAppend(Do(w, a[0]), a[1..], b);
    }
  }

  // ---- attempts ----

  /** A worker in flight holds an attempt number of its own, one that has not been given back. */
  ghost predicate FlightOk(w: World, k: nat)
    requires k in w.flights
  {
    var f := w.flights[k];
    && f.id < w.table.nextId && 1 <= f.attempts
    && (f.id in w.table.rows ==>
          && f.maxAttempts == w.table.rows[f.id].maxAttempts
          && f.attempts <= w.table.rows[f.id].attempts
          && f.attempts !in Retried(w, f.id))
  }

  /**
   * First claims, each of which needs a lock that a failed attempt gave back: there are at most as
   * many of them as failed attempts, and one more while the row is locked (or finished).
   */
  ghost predicate RowOk(w: World, id: nat)
    requires id in w.table.rows
  {
    var j, back := w.table.rows[id], Retried(w, id);
    && id < w.table.nextId && 1 <= j.maxAttempts
    && Reclaims(w, id) <= j.attempts
    && (forall a | a in back :: 1 <= a < j.maxAttempts && a <= j.attempts)
    && j.attempts - Reclaims(w, id) <= |back| + 1
    && (j.doneAt.None? && j.lockedAt.None? ==> j.attempts - Reclaims(w, id) <= |back|)
  }

  ghost predicate Counted(w: World) {
    && (forall id | id in w.table.rows :: RowOk(w, id))
    && (forall k | k in w.flights :: FlightOk(w, k))
    && (forall k, l | k in w.flights && l in w.flights && k != l && w.flights[k].id == w.flights[l].id ::
          w.flights[k].attempts != w.flights[l].attempts)
    && (forall id | id in w.retried || id in w.reclaims :: id < w.table.nextId)
  }

  lemma CountedTake(w: World, worker: nat, now: Moment, id: nat)
    requires Counted(w) && worker !in w.flights
    requires id in w.table.rows && w.table.rows[id].doneAt.None?
    ensures Counted(Take(w, worker, now, id))
  {
    var v := Take(w, worker, now, id);
    forall i | i in v.table.rows
      ensures RowOk(v, i)
    {
      assert RowOk(w, i);
    }
    forall k | k in v.flights
      ensures FlightOk(v, k)
    {
      if k == worker {
        assert RowOk(w, id);
      } else {
        assert FlightOk(w, k);
      }
    }
    forall k, l | k in v.flights && l in v.flights && k != l && v.flights[k].id == v.flights[l].id
      ensures v.flights[k].attempts != v.flights[l].attempts
    {
      var other := if k == worker then l else k;
      assert FlightOk(w, other);
    }
    assert RowOk(w, id);
  }

  lemma LandRow(w: World, worker: nat, result: Outcome, id: nat)
    requires Counted(w) && worker in w.flights && id in w.table.rows
    ensures id in Land(w, worker, result).table.rows && RowOk(Land(w, worker, result), id)
  {
    hide BackoffSpec;
    assert RowOk(w, id) && FlightOk(w, worker);
    var f, back := w.flights[worker], Retried(w, id);
    if f.id == id {
      assert |back + {f.attempts}| == |back| + 1;
    }
  }

  lemma LandFlight(w: World, worker: nat, result: Outcome, k: nat)
    requires Counted(w) && worker in w.flights && k in w.flights && k != worker
    ensures FlightOk(Land(w, worker, result), k)
  {
    hide BackoffSpec;
    assert FlightOk(w, k) && FlightOk(w, worker);
  }

  lemma CountedLand(w: World, worker: nat, result: Outcome)
    requires Counted(w) && worker in w.flights
    ensures Counted(Land(w, worker, result))
  {
    hide RowOk, FlightOk, Finish;
    var v := Land(w, worker, result);
    assert v.table.nextId == w.table.nextId && v.table.rows.Keys == w.table.rows.Keys by { FinishKeeps(w, worker, result); }
    forall i | i in v.table.rows
      ensures RowOk(v, i)
    {
      LandRow(w, worker, result, i);
    }
    forall k | k in v.flights
      ensures FlightOk(v, k)
    {
      LandFlight(w, worker, result, k);
    }
    assert w.flights[worker].id < w.table.nextId by { LandId(w, worker); }
  }

  lemma LandId(w: World, worker: nat)
    requires Counted(w) && worker in w.flights
    ensures w.flights[worker].id < w.table.nextId
  {
    assert FlightOk(w, worker);
  }

  lemma FinishKeeps(w: World, worker: nat, result: Outcome)
    requires worker in w.flights
    ensures Land(w, worker, result).table.nextId == w.table.nextId
    ensures Land(w, worker, result).table.rows.Keys == w.table.rows.Keys
  {
  }

  lemma CountedInsert(w: World, kind: string, key: string, runAt: Instant, n: nat)
    requires Counted(w) && n >= 1
    ensures Counted(w.(table := Insert(w.table, kind, key, runAt, n)))
  {
    hide KeyTaken;
    var v := w.(table := Insert(w.table, kind, key, runAt, n));
    forall i | i in v.table.rows
      ensures RowOk(v, i)
    {
      assert i in w.table.rows ==> RowOk(w, i);
    }
    forall k | k in v.flights
      ensures FlightOk(v, k)
    {
      assert FlightOk(w, k);
    }
  }

  lemma CountedDo(w: World, s: Step)
    requires Counted(w)
    ensures Counted(Do(w, s))
  {
    hide Ahead, Before, Insert, Lock, Finish, EveryKey, Truncate;
    match s
    case Tick(now) => CountedSame(w, Do(w, s));
    case Enqueue(kind, key, runAt, n) => CountedInsert(w, kind, key, runAt, AttemptsOrDefault(n));
    case Schedule(r) =>
      var b := Truncate(w.clock, r.interval);
      CountedInsert(w, r.kind, EveryKey(r.kind, Unix(b)), b, DEFAULT_ATTEMPTS);
      CountedSame(w.(table := Insert(w.table, r.kind, EveryKey(r.kind, Unix(b)), b, DEFAULT_ATTEMPTS)), Do(w, s));
    case Claim(worker, now) =>
      if Do(w, s) != w {
        var id := ClaimedId(w, worker, now);
        CountedTake(w, worker, now, id);
      }
    case Complete(worker, result) =>
      if worker in w.flights {
        CountedLand(w, worker, result);
      }
    case Crash(worker) => CountedSame(w, Do(w, s));
    case Cleanup(now) => CountedSame(w, Do(w, s));
  }

  /** Dropping rows and flights, and moving the clock, counts nothing new. */
  lemma CountedSame(w: World, v: World)
    requires Counted(w)
    requires v.table.nextId == w.table.nextId && v.reclaims == w.reclaims && v.retried == w.retried
    requires forall i | i in v.table.rows :: i in w.table.rows && v.table.rows[i] == w.table.rows[i]
    requires forall k | k in v.flights :: k in w.flights && v.flights[k] == w.flights[k]
    ensures Counted(v)
  {
    forall i | i in v.table.rows
      ensures RowOk(v, i)
    {
      assert RowOk(w, i);
    }
    forall k | k in v.flights
      ensures FlightOk(v, k)
    {
      assert FlightOk(w, k);
    }
  }

  /** The row a successful claim took. */
  lemma ClaimedId(w: World, worker: nat, now: Moment) returns (id: nat)
    requires Do(w, Claim(worker, now)) != w
    ensures worker !in w.flights
    ensures Selected(w.table.rows, now, now - w.staleLock, id)
    ensures Do(w, Claim(worker, now)) == Take(w, worker, now, id)
  {
    hide Ready, Ahead;
    var stale := now - w.staleLock;
    id :| Selected(w.table.rows, now, stale, id) && Do(w, Claim(worker, now)) == Take(w, worker, now, id);
  }

  lemma {:induction false} CountedRun(w: World, steps: seq<Step>)
    requires Counted(w)
    ensures Counted(Run(w, steps))
    decreases |steps|
  {
    if steps != [] {
      CountedDo(w, steps[0]);
      CountedRun(Do(w, steps[0]), steps[1..]);
    }
  }

  lemma {:induction false} SmallSet(s: set<nat>, m: nat)
    requires m >= 1 && forall a | a in s :: 1 <= a < m
    ensures |s| <= m - 1
    decreases m
  {
    if m == 1 {
      assert s == {};
    } else {
      SmallSet(s - {m - 1}, m - 1);
      assert s <= (s - {m - 1}) + {m - 1};
    }
  }

  /**
   * However many workers run, crash and steal stale locks, a job is attempted at most max_attempts
   * times plus once for each time its stale lock was reclaimed.
   */
  lemma AttemptsBounded(staleLock: Duration, clock: Moment, steps: seq<Step>, id: nat)
    ensures
      var w := Run(Start(staleLock, clock), steps);
      id in w.table.rows ==> w.table.rows[id].attempts <= w.table.rows[id].maxAttempts + Reclaims(w, id)
  {
    var w := Run(Start(staleLock, clock), steps);
    CountedRun(Start(staleLock, clock), steps);
    if id in w.table.rows {
      assert RowOk(w, id);
      SmallSet(Retried(w, id), w.table.rows[id].maxAttempts);
    }
  }

  // ---- finished stays finished ----

  ghost predicate StaysDone(w: World, v: World) {
    && w.table.nextId <= v.table.nextId
    && forall id | id in v.table.rows && id < w.table.nextId ::
         id in w.table.rows && (w.table.rows[id].doneAt.Some? ==> v.table.rows[id].doneAt.Some?)
  }

  lemma DoneStep(w: World, s: Step)
    requires IdsFresh(w.table)
    ensures IdsFresh(Do(w, s).table) && StaysDone(w, Do(w, s))
  {
    hide Ready, Ahead, EveryKey, Truncate, KeyTaken, BackoffSpec;
    if s.Claim? && Do(w, s) != w {
      var id := ClaimedId(w, s.worker, s.now);
    }
  }

  /** done_at, once set, is never cleared: the job is finished for as long as its row exists. */
  lemma {:induction false} DoneForever(w: World, steps: seq<Step>)
    requires IdsFresh(w.table)
    ensures IdsFresh(Run(w, steps).table) && StaysDone(w, Run(w, steps))
    decreases |steps|
  {
    if steps != [] {
      DoneStep(w, steps[0]);
      DoneForever(Do(w, steps[0]), steps[1..]);
    }
  }

  // ---- mutual exclusion ----

  /** A worker still in flight when another claims has been running for at most StaleLock less a second. */
  ghost predicate Timely(w: World, s: Step) {
    s.Claim? ==> forall k | k in w.flights :: s.now + SECOND <= w.flights[k].at + w.staleLock
  }

  ghost predicate TimelyRun(w: World, steps: seq<Step>)
    decreases |steps|
  {
    steps == [] || (Timely(w, steps[0]) && TimelyRun(Do(w, steps[0]), steps[1..]))
  }

  /** The row of a worker in flight is unfinished and carries that worker's own lock. */
  ghost predicate Holds(w: World, k: nat)
    requires k in w.flights
  {
    var f := w.flights[k];
    && f.id in w.table.rows
    && w.table.rows[f.id].doneAt.None?
    && w.table.rows[f.id].lockedAt == Some(f.at)
  }

  ghost predicate Exclusive(w: World) {
    && IdsFresh(w.table)
    && (forall k | k in w.flights :: Holds(w, k))
    && (forall k, l | k in w.flights && l in w.flights && k != l :: w.flights[k].id != w.flights[l].id)
  }

  lemma NotStale(w: World, k: nat, now: Moment, id: nat)
    requires k in w.flights && Holds(w, k)
    requires now + SECOND <= w.flights[k].at + w.staleLock
    requires Selected(w.table.rows, now, now - w.staleLock, id)
    ensures w.flights[k].id != id
  {
    hide Ahead, Before, NotAfter;
    WithinASecond(w.flights[k].at, now - w.staleLock);
  }

  lemma ExclusiveClaim(w: World, worker: nat, now: Moment)
    requires Exclusive(w) && Timely(w, Claim(worker, now))
    ensures Exclusive(Do(w, Claim(worker, now)))
  {
    hide Selected;
    var v := Do(w, Claim(worker, now));
    DoneStep(w, Claim(worker, now));
    if v != w {
      var id := ClaimedId(w, worker, now);
      ReadyIsUnfinished(w.table.rows, now, now - w.staleLock, id);
      forall k | k in w.flights
        ensures w.flights[k].id != id && Holds(v, k)
      {
        assert Holds(w, k);
        NotStale(w, k, now, id);
      }
    }
  }

  lemma ExclusiveStep(w: World, s: Step)
    requires Exclusive(w) && Timely(w, s)
    ensures Exclusive(Do(w, s))
  {
    hide Selected, EveryKey, Truncate, KeyTaken, BackoffSpec;
    if s.Claim? {
      ExclusiveClaim(w, s.worker, s.now);
    } else {
      var v := Do(w, s);
      DoneStep(w, s);
      forall k | k in v.flights
        ensures Holds(v, k)
      {
        assert Holds(w, k);
      }
    }
  }

  lemma ReadyIsUnfinished(rows: map<nat, Job>, now: Instant, stale: Instant, id: nat)
    requires Selected(rows, now, stale, id)
    ensures id in rows && rows[id].doneAt.None?
  {
  }

  lemma {:induction false} ExclusiveRun(w: World, steps: seq<Step>)
    requires Exclusive(w) && TimelyRun(w, steps)
    ensures Exclusive(Run(w, steps))
    decreases |steps|
  {
    if steps != [] {
      ExclusiveStep(w, steps[0]);
      ExclusiveRun(Do(w, steps[0]), steps[1..]);
    }
  }

  /** With timely handlers no two workers ever hold the same job. */
  lemma MutualExclusion(staleLock: Duration, clock: Moment, steps: seq<Step>, k: nat, l: nat)
    requires TimelyRun(Start(staleLock, clock), steps)
    ensures
      var w := Run(Start(staleLock, clock), steps);
      k in w.flights && l in w.flights && k != l ==> w.flights[k].id != w.flights[l].id
  {
    ExclusiveRun(Start(staleLock, clock), steps);
  }

  /** No job is claimed a full second or more before its run_at. */
  lemma NeverEarly(w: World, worker: nat, now: Moment)
    ensures
      var v := Do(w, Claim(worker, now));
      v != w ==>
        && worker in v.flights && v.flights[worker].id in w.table.rows
        && w.table.rows[v.flights[worker].id].runAt < now + SECOND
  {
    hide Ahead, Before, NotAfter;
    if Do(w, Claim(worker, now)) != w {
      var id := ClaimedId(w, worker, now);
      WithinASecond(w.table.rows[id].runAt, now);
    }
  }

  /**
   * A claim takes the job that is due first: none that is ready is due in an earlier second, or at the same
   * instant with a lower id. A free worker's claim takes some job whenever one has been due for a second and is
   * not locked, or its lock has been stale for a second.
   */
  lemma ClaimsFirst(w: World, worker: nat, now: Moment, k: nat)
    requires k in w.table.rows
    ensures
      var v := Do(w, Claim(worker, now));
      v != w && Ready(w.table.rows[k], now, now - w.staleLock) ==>
        && worker in v.flights && v.flights[worker].id in w.table.rows
        && var id := v.flights[worker].id;
        && w.table.rows[id].runAt / SECOND <= w.table.rows[k].runAt / SECOND
        && w.table.rows[id].runAt < w.table.rows[k].runAt + SECOND
        && (w.table.rows[id].runAt == w.table.rows[k].runAt ==> id <= k)
    ensures
      var j := w.table.rows[k];
      worker !in w.flights && j.doneAt.None? && j.runAt + SECOND <= now && (j.lockedAt.None? || j.lockedAt.value + SECOND <= now - w.staleLock) ==>
        Do(w, Claim(worker, now)) != w
  {
    hide Ready, Selected, Lock;
    var v := Do(w, Claim(worker, now));
    if v != w {
      var id := ClaimedId(w, worker, now);
      SelectedIsReady(w.table.rows, now, now - w.staleLock);
      if Ready(w.table.rows[k], now, now - w.staleLock) {
        SelectedFirst(w.table.rows, now, now - w.staleLock, id, k);
      }
    }
    SelectedExists(w.table.rows, now, now - w.staleLock);
    ReadyMeans(w.table.rows[k], now, now - w.staleLock);
    if worker !in w.flights && Ready(w.table.rows[k], now, now - w.staleLock) {
      var id :| Selected(w.table.rows, now, now - w.staleLock, id);
      ClaimTakes(w, worker, now, id);
      assert worker in v.flights;
    }
  }

  /**
   * A crash loses no job: the worker is free, its row keeps its lock and its count, and once that lock has been
   * stale for a second any free worker's claim takes a job again.
   */
  lemma CrashLosesNothing(w: World, worker: nat, other: nat, id: nat, now: Moment)
    requires id in w.table.rows && (other == worker || other !in w.flights)
    ensures
      var v, j := Do(w, Crash(worker)), w.table.rows[id];
      && worker !in v.flights && v.table == w.table
      && (j.doneAt.None? && j.lockedAt.Some? && j.runAt + SECOND <= now && j.lockedAt.value + SECOND <= now - w.staleLock ==>
            Do(v, Claim(other, now)) != v)
  {
    hide Ready, Selected, Lock, Ahead;
    var v := Do(w, Crash(worker));
    assert v == w.(flights := w.flights - {worker});
    ClaimsFirst(v, other, now, id);
  }

  /** A free worker's claim takes the selected row. */
  lemma ClaimTakes(w: World, worker: nat, now: Moment, id: nat)
    requires worker !in w.flights && Selected(w.table.rows, now, now - w.staleLock, id)
    ensures Do(w, Claim(worker, now)) == Take(w, worker, now, id)
  {
    hide Ready, Ahead;
    var stale: Instant := now - w.staleLock;
    assert Selected(w.table.rows, now, stale, id);
    forall i | Selected(w.table.rows, now, stale, i)
      ensures i == id
    {
      SelectedUnique(w.table.rows, now, stale, i, id);
    }
  }

  /**
   * Without timely handlers exclusion is lost, and worse: once the lock of a live worker is reclaimed,
   * that worker's finish, whatever its outcome, unlocks the row that the second worker is still running.
   */
  lemma StaleFinishClearsLock(w: World, k: nat, worker: nat, now: Moment, result: Outcome)
    requires k in w.flights && worker !in w.flights
    requires Selected(w.table.rows, now, now - w.staleLock, w.flights[k].id)
    ensures
      var id := w.flights[k].id;
      var both := Do(w, Claim(worker, now));
      var after := Do(both, Complete(k, result));
      && worker in both.flights && k in both.flights && both.flights[worker].id == id == both.flights[k].id
      && worker in after.flights && id in after.table.rows && after.table.rows[id].lockedAt == None
      && (after.table.rows[id].doneAt.Some? <==> result.Succeeded? || w.flights[k].attempts >= w.flights[k].maxAttempts)
  {
    hide Ready, Ahead;
    ClaimTakes(w, worker, now, w.flights[k].id);
    ReadyIsUnfinished(w.table.rows, now, now - w.staleLock, w.flights[k].id);
  }

  // ---- recurring work ----

  /** A clock that never runs backwards; Cleanup reads it before its statement runs. */
  ghost predicate NoRewind(w: World, s: Step) {
    && (s.Tick? ==> w.clock <= s.now)
    && (s.Cleanup? ==> s.now <= w.clock)
  }

  /** The schedule holds whole-second intervals up to a day, and other jobs use other keys. */
  ghost predicate Registered(s: Step) {
    && (s.Schedule? ==> Plain(s.every.kind) && 0 < s.every.interval <= DAY && s.every.interval % SECOND == 0)
    && (s.Enqueue? ==> !("every:" <= s.key))
  }

  ghost predicate ForwardRun(w: World, steps: seq<Step>)
    decreases |steps|
  {
    steps == [] || (NoRewind(w, steps[0]) && Registered(steps[0]) && ForwardRun(Do(w, steps[0]), steps[1..]))
  }

  function KeyOf(entry: (string, Instant)): string { EveryKey(entry.0, Unix(entry.1)) }

  /** The row of a scheduled bucket is still there, with no done_at before the bucket. */
  ghost predicate Present(w: World, entry: (string, Instant), id: nat) {
    && id in w.table.rows && w.table.rows[id].key == Some(KeyOf(entry))
    && (w.table.rows[id].doneAt.Some? ==> entry.1 <= w.table.rows[id].doneAt.value)
  }

  /** A bucket on record is a whole second, not in the future, and its row is there unless a day has passed. */
  ghost predicate BucketKept(w: World, entry: (string, Instant)) {
    && Plain(entry.0) && entry.1 % SECOND == 0 && entry.1 <= w.clock
    && (entry.1 + DAY <= w.clock || exists id :: Present(w, entry, id))
  }

  ghost predicate OncePerBucket(w: World) {
    && IdsFresh(w.table)
    && (forall i | 0 <= i < |w.scheduled| :: BucketKept(w, w.scheduled[i]))
    && (forall i, j | 0 <= i < j < |w.scheduled| :: w.scheduled[i] != w.scheduled[j])
  }

  /** What a step has to leave alone for the record to stay right. */
  lemma KeptStays(w: World, v: World, entry: (string, Instant))
    requires BucketKept(w, entry) && w.clock <= v.clock
    requires forall id | id in w.table.rows && Present(w, entry, id) :: Present(v, entry, id) || entry.1 + DAY <= v.clock
    ensures BucketKept(v, entry)
  {
    if entry.1 + DAY > v.clock {
      var id :| Present(w, entry, id);
      assert Present(v, entry, id);
    }
  }

  /** A row old enough to be deleted finished long after its bucket began, so a day has passed. */
  lemma ExpiredBucket(j: Job, bucket: Instant, now: Moment)
    requires Expired(j, now) && bucket <= j.doneAt.value
    ensures bucket + DAY <= now
  {
    hide Before, NotAfter;
    WithinASecond(j.doneAt.value, now - 30 * DAY);
  }

  lemma ExpiredIsDone(j: Job, now: Moment)
    ensures Expired(j, now) ==> j.doneAt.Some?
  {
  }

  lemma CleanupKeeps(w: World, now: Moment, entry: (string, Instant))
    requires BucketKept(w, entry) && now <= w.clock
    ensures BucketKept(Do(w, Cleanup(now)), entry)
  {
    hide Expired, KeyOf, EveryKey;
    var v := Do(w, Cleanup(now));
    forall id | id in w.table.rows && Present(w, entry, id)
      ensures Present(v, entry, id) || entry.1 + DAY <= v.clock
    {
      if Expired(w.table.rows[id], now) {
        ExpiredIsDone(w.table.rows[id], now);
        ExpiredBucket(w.table.rows[id], entry.1, now);
      }
    }
    KeptStays(w, v, entry);
  }

  lemma CompleteKeeps(w: World, worker: nat, result: Outcome, entry: (string, Instant))
    requires BucketKept(w, entry)
    ensures BucketKept(Do(w, Complete(worker, result)), entry)
  {
    hide KeyOf, BackoffSpec;
    KeptStays(w, Do(w, Complete(worker, result)), entry);
  }

  lemma ClaimKeeps(w: World, worker: nat, now: Moment, entry: (string, Instant))
    requires BucketKept(w, entry)
    ensures BucketKept(Do(w, Claim(worker, now)), entry)
  {
    hide KeyOf, Selected;
    var v := Do(w, Claim(worker, now));
    if v != w {
      var id := ClaimedId(w, worker, now);
    }
    KeptStays(w, v, entry);
  }

  lemma InsertKeeps(w: World, kind: string, key: string, runAt: Instant, n: nat, entry: (string, Instant))
    requires BucketKept(w, entry) && IdsFresh(w.table)
    ensures BucketKept(w.(table := Insert(w.table, kind, key, runAt, n)), entry)
  {
    hide KeyOf, KeyTaken;
    KeptStays(w, w.(table := Insert(w.table, kind, key, runAt, n)), entry);
  }

  lemma KeptDo(w: World, s: Step, entry: (string, Instant))
    requires BucketKept(w, entry) && IdsFresh(w.table) && NoRewind(w, s)
    ensures BucketKept(Do(w, s), entry)
  {
    hide KeyOf, KeyTaken, Selected, EveryKey, Truncate, Insert, Finish, Purge;
    match s
    case Tick(now) => KeptStays(w, Do(w, s), entry);
    case Enqueue(kind, key, runAt, n) => InsertKeeps(w, kind, key, runAt, AttemptsOrDefault(n), entry);
    case Schedule(r) =>
      var b := Truncate(w.clock, r.interval);
      InsertKeeps(w, r.kind, EveryKey(r.kind, Unix(b)), b, DEFAULT_ATTEMPTS, entry);
      KeptStays(w.(table := Insert(w.table, r.kind, EveryKey(r.kind, Unix(b)), b, DEFAULT_ATTEMPTS)), Do(w, s), entry);
    case Claim(worker, now) => ClaimKeeps(w, worker, now, entry);
    case Complete(worker, result) => CompleteKeeps(w, worker, result, entry);
    case Crash(worker) => KeptStays(w, Do(w, s), entry);
    case Cleanup(now) => CleanupKeeps(w, now, entry);
  }

  /** A bucket that is current and on record still has its row, so the insert does nothing. */
  lemma CurrentBucketTaken(w: World, r: Recurring, i: nat)
    requires OncePerBucket(w) && i < |w.scheduled|
    requires Registered(Schedule(r))
    requires w.scheduled[i] == (r.kind, Truncate(w.clock, r.interval))
    ensures Recur(w, r) == w
  {
    hide KeyOf;
    var entry := w.scheduled[i];
    assert BucketKept(w, entry);
    var id :| Present(w, entry, id);
    assert KeyTaken(w.table.rows, EveryKey(r.kind, Unix(entry.1))) by {
      assert KeyOf(entry) == EveryKey(r.kind, Unix(entry.1)) by { KeyOfIs(entry); }
      assert w.table.rows[id].key == Some(KeyOf(entry));
    }
  }

  lemma KeyOfIs(entry: (string, Instant))
    ensures KeyOf(entry) == EveryKey(entry.0, Unix(entry.1)) && KeyOf(entry) != ""
  {
  }

  /** A bucket that gets its row now is on record from now on. */
  lemma NewBucketKept(w: World, r: Recurring)
    requires IdsFresh(w.table) && Registered(Schedule(r)) && Recur(w, r).table != w.table
    ensures BucketKept(Recur(w, r), (r.kind, Truncate(w.clock, r.interval)))
  {
    hide KeyTaken, EveryKey, Unix;
    var entry := (r.kind, Truncate(w.clock, r.interval));
    WholeBucket(w.clock, r.interval);
    assert Present(Recur(w, r), entry, w.table.nextId);
  }

  lemma OnceDo(w: World, s: Step)
    requires OncePerBucket(w) && NoRewind(w, s) && Registered(s)
    ensures OncePerBucket(Do(w, s))
  {
    hide BucketKept, Insert, Truncate, EveryKey, Finish, Purge, Selected, Lock, Plain;
    var v := Do(w, s);
    assert IdsFresh(v.table) by { DoneStep(w, s); }
    forall i | 0 <= i < |w.scheduled|
      ensures BucketKept(v, w.scheduled[i])
    {
      KeptDo(w, s, w.scheduled[i]);
    }
    if s.Schedule? && v.table != w.table {
      NewBucketKept(w, s.every);
      var entry := (s.every.kind, Truncate(w.clock, s.every.interval));
      forall i | 0 <= i < |w.scheduled|
        ensures w.scheduled[i] != entry
      {
        if w.scheduled[i] == entry {
          CurrentBucketTaken(w, s.every, i);
        }
      }
    }
  }

  lemma {:induction false} OnceRun(w: World, steps: seq<Step>)
    requires OncePerBucket(w) && ForwardRun(w, steps)
    ensures OncePerBucket(Run(w, steps))
    decreases |steps|
  {
    if steps != [] {
      OnceDo(w, steps[0]);
      OnceRun(Do(w, steps[0]), steps[1..]);
    }
  }

  /** Every row under a schedule key is the row of a bucket on record. */
  ghost predicate OnRecord(w: World, key: string) {
    exists i :: 0 <= i < |w.scheduled| && KeyOf(w.scheduled[i]) == key
  }

  ghost predicate Recorded(w: World) {
    forall id | id in w.table.rows && w.table.rows[id].key.Some? && "every:" <= w.table.rows[id].key.value ::
      OnRecord(w, w.table.rows[id].key.value)
  }

  lemma RecordGrows(w: World, s: Step, key: string)
    requires OnRecord(w, key)
    ensures OnRecord(Do(w, s), key)
  {
    hide KeyOf, Insert, Truncate, EveryKey, Selected;
    var i :| 0 <= i < |w.scheduled| && KeyOf(w.scheduled[i]) == key;
    assert Do(w, s).scheduled[i] == w.scheduled[i];
  }

  lemma RecurRecorded(w: World, r: Recurring)
    requires Recorded(w)
    ensures Recorded(Recur(w, r))
  {
    hide KeyTaken, Truncate;
    var v, entry := Recur(w, r), (r.kind, Truncate(w.clock, r.interval));
    KeyOfIs(entry);
    forall id | id in v.table.rows && v.table.rows[id].key.Some? && "every:" <= v.table.rows[id].key.value
      ensures OnRecord(v, v.table.rows[id].key.value)
    {
      if v == w || (id in w.table.rows && v.table.rows[id] == w.table.rows[id]) {
        RecordGrows(w, Schedule(r), w.table.rows[id].key.value);
      } else {
        assert v.scheduled[|w.scheduled|] == entry;
      }
    }
  }

  lemma RecordedDo(w: World, s: Step)
    requires Recorded(w) && Registered(s)
    ensures Recorded(Do(w, s))
  {
    hide OnRecord, KeyTaken, Truncate, EveryKey, Selected, BackoffSpec, KeyOf;
    if s.Schedule? {
      RecurRecorded(w, s.every);
    } else {
      var v := Do(w, s);
      if s.Claim? && v != w {
        var id := ClaimedId(w, s.worker, s.now);
      }
      forall id | id in v.table.rows && v.table.rows[id].key.Some? && "every:" <= v.table.rows[id].key.value
        ensures OnRecord(v, v.table.rows[id].key.value)
      {
        RecordGrows(w, s, v.table.rows[id].key.value);
      }
    }
  }

  /** A schedule tick leaves its bucket on record, whether it inserted the row or found it. */
  lemma TickRecords(w: World, r: Recurring)
    requires OncePerBucket(w) && Recorded(w) && Registered(Schedule(r))
    ensures (r.kind, Truncate(w.clock, r.interval)) in Recur(w, r).scheduled
  {
    hide Truncate, EveryKey, Unix;
    var entry, v := (r.kind, Truncate(w.clock, r.interval)), Recur(w, r);
    var key := EveryKey(r.kind, Unix(entry.1));
    if v.table != w.table {
      assert v.scheduled[|w.scheduled|] == entry;
    } else {
      assert KeyTaken(w.table.rows, key) by { InsertTaken(w.table, r.kind, key, entry.1, DEFAULT_ATTEMPTS); }
      var id :| id in w.table.rows && w.table.rows[id].key == Some(key);
      assert "every:" <= key by { EveryPrefix(r.kind, Unix(entry.1)); }
      var i :| 0 <= i < |w.scheduled| && KeyOf(w.scheduled[i]) == key;
      assert BucketKept(w, w.scheduled[i]);
      WholeBucket(w.clock, r.interval);
      EveryKeyInjective(r.kind, Unix(entry.1), w.scheduled[i].0, Unix(w.scheduled[i].1));
      UnixInjective(entry.1, w.scheduled[i].1);
    }
  }

  lemma EveryPrefix(kind: string, unix: int)
    ensures "every:" <= EveryKey(kind, unix)
  {
  }

  lemma InsertTaken(t: Table, kind: string, key: string, runAt: Instant, n: nat)
    requires key != "" && Insert(t, kind, key, runAt, n) == t
    ensures KeyTaken(t.rows, key)
  {
  }

  lemma {:induction false} RecordedRun(w: World, steps: seq<Step>)
    requires Recorded(w) && ForwardRun(w, steps)
    ensures Recorded(Run(w, steps))
    decreases |steps|
  {
    if steps != [] {
      RecordedDo(w, steps[0]);
      RecordedRun(Do(w, steps[0]), steps[1..]);
    }
  }

  /**
   * Over a whole run with restarts, a recurring job is enqueued exactly once for each interval
   * bucket in which the schedule ticks, although Cleanup deletes finished rows and so frees their
   * keys: the record of inserted buckets never repeats, and holds the bucket of every tick.
   */
  lemma RecurringOnce(staleLock: Duration, clock: Moment, steps: seq<Step>, r: Recurring)
    requires ForwardRun(Start(staleLock, clock), steps) && Registered(Schedule(r))
    ensures
      var w := Do(Run(Start(staleLock, clock), steps), Schedule(r));
      && (r.kind, Truncate(w.clock, r.interval)) in w.scheduled
      && forall i, j :: 0 <= i < j < |w.scheduled| ==> w.scheduled[i] != w.scheduled[j]
  {
    hide Recorded, Truncate, Recur, Run, BucketKept;
    OnceRun(Start(staleLock, clock), steps);
    assert Recorded(Start(staleLock, clock)) by { NothingRecorded(staleLock, clock); }
    RecordedRun(Start(staleLock, clock), steps);
    var w := Run(Start(staleLock, clock), steps);
    OnceDo(w, Schedule(r));
    TickRecords(w, r);
    assert Recur(w, r).clock == w.clock by { RecurClock(w, r); }
  }

  lemma RecurClock(w: World, r: Recurring)
    ensures Recur(w, r).clock == w.clock
  {
  }

  lemma NothingRecorded(staleLock: Duration, clock: Moment)
    ensures Recorded(Start(staleLock, clock))
  {
  }
}
