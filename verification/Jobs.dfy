/**
 * The queue object of internal/jobs/jobs.go: its methods run the statements of JobTable one after
 * the other, in the source's own order, on the table it keeps.
 */
module Jobs {
  import opened Basics
  import opened Timestamps
  import opened JobTable
  import opened DedupeKeys
  import Workers

  ghost function Pow4(n: nat): nat { if n == 0 then 1 else 4 * Pow4(n - 1) }

  lemma {:induction false} Pow4Grows(n: nat, m: nat)
    requires n <= m
    ensures Pow4(n) <= Pow4(m)
    decreases m
  {
    if n < m {
      Pow4Grows(n, m - 1);
    }
  }

  /** The recursion behind the table is the documented formula, 30 s times 4 to the k-1, capped at 6 h. */
  lemma {:induction false} BackoffFormula(k: nat)
    requires k >= 1
    ensures BackoffSpec(k) == Min(30 * SECOND * Pow4(k - 1), 6 * HOUR)
  {
    if k > 1 {
      BackoffFormula(k - 1);
      assert Pow4(k - 1) == 4 * Pow4(k - 2);
    }
  }

  /** The loop of Backoff; every intermediate value fits an int64. */
  method Backoff(attempt: int) returns (d: Duration)
    ensures d == BackoffSpec(attempt)
    ensures attempt >= 1 ==> d == Min(30 * SECOND * Pow4(attempt - 1), 6 * HOUR)
  {
    var delay := 30 * SECOND;
    var i := 1;
    while i < attempt && delay < 6 * HOUR
      invariant 1 <= i && (i <= attempt || i == 1)
      invariant delay == 30 * SECOND * Pow4(i - 1)
      invariant 0 < delay < 24 * HOUR <= MAX_INT64
      decreases attempt - i
    {
      assert Pow4(i) == 4 * Pow4(i - 1);
      delay := delay * 4;
      i := i + 1;
    }
    d := Min(delay, 6 * HOUR);
    if attempt >= 1 {
      BackoffFormula(attempt);
      Pow4Grows(i - 1, attempt - 1);
    }
  }

  /** Attempts the unfinished rows below id n may still use. */
  ghost function Work(rows: map<nat, Job>, n: nat): nat {
    if n == 0 then 0 else Work(rows, n - 1) + Left(rows, n - 1)
  }

  ghost function Left(rows: map<nat, Job>, id: nat): nat {
    if id in rows && rows[id].doneAt.None? && rows[id].attempts < rows[id].maxAttempts
    then rows[id].maxAttempts - rows[id].attempts else 0
  }

  /** Changing one row changes the work by that row's share. */
  lemma {:induction false} WorkOfOneRow(rows: map<nat, Job>, after: map<nat, Job>, id: nat, n: nat)
    requires forall i | 0 <= i < n && i != id :: Left(after, i) == Left(rows, i)
    ensures Work(after, n) == Work(rows, n) + if id < n then Left(after, id) - Left(rows, id) else 0
  {
    if n > 0 {
      WorkOfOneRow(rows, after, id, n - 1);
    }
  }

  class Queue {
    var rows: map<nat, Job>
    var nextId: nat
    var every: seq<Recurring>
    const staleLock: Duration

    function Table(): Table
      reads this
    {
      JobTable.Table(rows, nextId)
    }

    constructor (staleLock: Duration)
      ensures Table() == EMPTY && every == [] && this.staleLock == staleLock
    {
      rows, nextId, every := map[], 0, [];
      this.staleLock := staleLock;
    }

    method Every(kind: string, interval: Duration)
      modifies this
      ensures every == old(every) + [Recurring(kind, interval)]
      ensures Table() == old(Table())
    {
      every := every + [Recurring(kind, interval)];
    }

    method Enqueue(kind: string, key: string, runAt: Option<Moment>, maxAttempts: int, now: Moment)
      modifies this
      ensures every == old(every)
      ensures Table() == Insert(old(Table()), kind, key, if runAt.Some? then runAt.value else now, AttemptsOrDefault(maxAttempts))
      ensures
        var taken := key != "" && exists i :: i in old(rows) && old(rows)[i].key == Some(key);
        var at := if runAt.Some? then runAt.value else now;
        var tries := if maxAttempts <= 0 then 5 else maxAttempts;
        rows == if taken then old(rows) else
          old(rows)[old(nextId) := Job(kind, if key == "" then None else Some(key), at, 0, tries, None, None, None)]
    {
      var at := now;
      if runAt.Some? {
        at := runAt.value;
      }
      var tries := maxAttempts;
      if tries <= 0 {
        tries := DEFAULT_ATTEMPTS;
      }
      EnqueueAt(kind, key, at, tries);
    }

    method EnqueueAt(kind: string, key: string, runAt: Instant, tries: nat)
      modifies this
      ensures every == old(every)
      ensures Table() == Insert(old(Table()), kind, key, runAt, tries)
    {
      var unique := true;
      if key != "" {
        unique := !KeyTaken(rows, key);
      }
      if unique {
        rows := rows[nextId := Job(kind, if key == "" then None else Some(key), runAt, 0, tries, None, None, None)];
        nextId := nextId + 1;
      }
    }

    /** The schedule transaction: one insert for each registered kind, at the clock of its own turn. */
    method Schedule(clock: seq<Moment>)
      requires |clock| == |every|
      modifies this
      ensures every == old(every)
      ensures Table() == Scheduled(old(Table()), every, clock, |every|)
    {
      hide Insert, EveryKey;
      var i := 0;
      while i < |every|
        invariant 0 <= i <= |every| == |clock|
        invariant every == old(every)
        invariant Table() == Scheduled(old(Table()), every, clock, i)
      {
        var bucket := Truncate(clock[i], every[i].interval);
        EnqueueAt(every[i].kind, EveryKey(every[i].kind, Unix(bucket)), bucket, DEFAULT_ATTEMPTS);
        i := i + 1;
      }
    }

    /** The claim transaction: lock the first ready row and count the attempt. */
    method ClaimNext(now: Moment) returns (claimed: Option<(nat, Job)>)
      modifies this
      ensures every == old(every)
      ensures claimed.None? ==> Table() == old(Table()) && forall k | k in rows :: !Ready(rows[k], now, now - staleLock)
      ensures claimed.None? ==> forall k | k in rows && rows[k].doneAt.None? && rows[k].runAt + SECOND <= now ::
        rows[k].lockedAt.Some? && now - staleLock < rows[k].lockedAt.value + SECOND
      ensures claimed.Some? ==>
        && var (id, row) := claimed.value;
        && Selected(old(rows), now, now - staleLock, id) && row == old(rows)[id]
        && row.doneAt.None? && row.runAt < now + SECOND && (row.lockedAt.Some? ==> row.lockedAt.value < now - staleLock + SECOND)
        && rows == old(rows)[id := row.(lockedAt := Some(now), attempts := row.attempts + 1)] && nextId == old(nextId)
        && Table() == Lock(old(Table()), id, now, row.attempts + 1)
      ensures claimed.Some? ==> forall k | k in old(rows) && Ready(old(rows)[k], now, now - staleLock) ::
        && claimed.value.1.runAt / SECOND <= old(rows)[k].runAt / SECOND && claimed.value.1.runAt < old(rows)[k].runAt + SECOND
        && (claimed.value.1.runAt == old(rows)[k].runAt ==> claimed.value.0 <= k)
    {
      hide Ready, Ahead, Selected;
      var stale: Instant := now - staleLock;
      var ready := set k | k in rows && Ready(rows[k], now, stale);
      if ready == {} {
        assert forall k | k in rows :: k !in ready;
        forall k | k in rows && rows[k].doneAt.None? && rows[k].runAt + SECOND <= now
          ensures rows[k].lockedAt.Some? && stale < rows[k].lockedAt.value + SECOND
        {
          ReadyMeans(rows[k], now, stale);
        }
        return None;
      }
      ghost var some :| some in ready;
      SelectedExists(rows, now, stale);
      SelectedIsReady(rows, now, stale);
      var id: nat :| id in rows && Selected(rows, now, stale, id);
      forall k | k in rows && Ready(rows[k], now, stale)
        ensures rows[id].runAt / SECOND <= rows[k].runAt / SECOND && rows[id].runAt < rows[k].runAt + SECOND
        ensures rows[id].runAt == rows[k].runAt ==> id <= k
      {
        SelectedFirst(rows, now, stale, id, k);
      }
      ReadyMeans(rows[id], now, stale);
      claimed := Some((id, rows[id]));
      var attempts := rows[id].attempts + 1;
      rows := rows[id := rows[id].(lockedAt := Some(now), attempts := attempts)];
    }

    /** Claim, handler, finish. The cleanup handler works on the table itself. */
    method RunOne(now: Moment, after: Moment, handler: Job -> Outcome) returns (worked: bool, ghost id: nat)
      modifies this
      ensures every == old(every)
      ensures !worked ==> Table() == old(Table()) && forall k | k in rows :: !Ready(rows[k], now, now - staleLock)
      ensures worked ==>
        && Selected(old(rows), now, now - staleLock, id)
        && Table() == Worked(old(Table()), id, now, after, handler)
      ensures worked ==> id in old(rows)
      ensures worked ==> forall k | k in old(rows) && Ready(old(rows)[k], now, now - staleLock) ::
        && old(rows)[id].runAt / SECOND <= old(rows)[k].runAt / SECOND && old(rows)[id].runAt < old(rows)[k].runAt + SECOND
        && (old(rows)[id].runAt == old(rows)[k].runAt ==> id <= k)
    {
      hide Selected, Ready, Finish, Purge, Lock;
      var claimed := ClaimNext(now);
      worked, id := claimed.Some?, 0;
      SelectedIsReady(old(rows), now, now - staleLock);
      if claimed.Some? {
        var (job, row) := claimed.value;
        id := job;
        var result := handler(row);
        if row.kind == "jobs.cleanup" {
          Cleanup(after);
        }
        FinishJob(job, row.attempts + 1, row.maxAttempts, result, after);
      }
    }

    method FinishJob(id: nat, attempts: nat, maxAttempts: nat, result: Outcome, now: Moment)
      modifies this
      ensures every == old(every)
      ensures Table() == Finish(old(Table()), id, attempts, maxAttempts, result, now)
      ensures nextId == old(nextId) && (id !in old(rows) ==> rows == old(rows))
      ensures id in old(rows) && result.Succeeded? ==>
        rows == old(rows)[id := old(rows)[id].(doneAt := Some(now), lockedAt := None, lastError := None)]
      ensures id in old(rows) && result.Failed? && attempts >= maxAttempts ==>
        rows == old(rows)[id := old(rows)[id].(doneAt := Some(now), lockedAt := None, lastError := Some("dead: " + result.error))]
      ensures id in old(rows) && result.Failed? && 1 <= attempts < maxAttempts ==>
        var delay := Min(30 * SECOND * Pow4(attempts - 1), 6 * HOUR);
        rows == old(rows)[id := old(rows)[id].(runAt := now + delay, lockedAt := None, lastError := Some(result.error))]
    {
      if id !in rows {
        return;
      }
      if result.Succeeded? {
        rows := rows[id := rows[id].(doneAt := Some(now), lockedAt := None, lastError := None)];
      } else if attempts >= maxAttempts {
        rows := rows[id := rows[id].(doneAt := Some(now), lockedAt := None, lastError := Some("dead: " + result.error))];
      } else {
        var delay := Backoff(attempts);
        rows := rows[id := rows[id].(runAt := now + delay, lockedAt := None, lastError := Some(result.error))];
      }
    }

    method Cleanup(now: Moment)
      modifies this
      ensures every == old(every)
      ensures Table() == Purge(old(Table()), now)
      ensures forall i | i in rows :: i in old(rows) && rows[i] == old(rows)[i]
      ensures forall i | i in old(rows) && i !in rows :: old(rows)[i].doneAt.Some? && old(rows)[i].doneAt.value + 30 * DAY < now + SECOND
      ensures forall i | i in rows && rows[i].doneAt.Some? :: now < rows[i].doneAt.value + 30 * DAY + SECOND
    {
      hide Expired;
      forall i | i in rows
        ensures Expired(rows[i], now) ==> rows[i].doneAt.Some? && rows[i].doneAt.value + 30 * DAY < now + SECOND
        ensures rows[i].doneAt.Some? && rows[i].doneAt.value + 30 * DAY + SECOND <= now ==> Expired(rows[i], now)
      {
        ExpiredExactly(rows[i], now);
      }
      rows := map i | i in rows && !Expired(rows[i], now) :: rows[i];
    }

    /**
     * The drain loop of Run: with no claim lost and nothing enqueued meanwhile it terminates, because
     * every job run uses up one of the attempts left; afterwards nothing is due.
     */
    method Drain(clock: nat -> Moment, handler: Job -> Outcome) returns (last: Moment)
      requires Tidy(Table())
      modifies this
      ensures Tidy(Table()) && every == old(every) && nextId == old(nextId)
      ensures forall k | k in rows :: !Ready(rows[k], last, last - staleLock)
    {
      hide Selected, Ready, Worked, Work;
      var worked, i: nat := true, 0;
      last := clock(0);
      while worked
        invariant Tidy(Table()) && every == old(every) && nextId == old(nextId)
        invariant !worked ==> forall k | k in rows :: !Ready(rows[k], last, last - staleLock)
        decreases Work(rows, nextId), worked
      {
        last := clock(i);
        ghost var before := Table();
        ghost var id: nat;
        worked, id := RunOne(last, clock(i + 1), handler);
        if worked {
          WorkFalls(before, id, last, staleLock, clock(i + 1), handler);
        }
        i := i + 2;
      }
    }
  }

  /** The table after the first n inserts of a schedule tick. */
  ghost function Scheduled(t: Table, every: seq<Recurring>, clock: seq<Moment>, n: nat): Table
    requires n <= |every| == |clock|
  {
    if n == 0 then t
    else
      var bucket := Truncate(clock[n - 1], every[n - 1].interval);
      Insert(Scheduled(t, every, clock, n - 1), every[n - 1].kind,
             EveryKey(every[n - 1].kind, Unix(bucket)), bucket, DEFAULT_ATTEMPTS)
  }

  /** The table after one job was claimed, run and finished without interference. */
  ghost function Worked(t: Table, id: nat, now: Moment, after: Moment, handler: Job -> Outcome): Table
    requires id in t.rows
  {
    var j := t.rows[id];
    var locked := Lock(t, id, now, j.attempts + 1);
    var ran := if j.kind == "jobs.cleanup" then Purge(locked, after) else locked;
    Finish(ran, id, j.attempts + 1, j.maxAttempts, handler(j), after)
  }

  /** No claim was lost: every unfinished row is unlocked and has an attempt left. */
  ghost predicate Tidy(t: Table) {
    forall id | id in t.rows ::
      id < t.nextId && (t.rows[id].doneAt.None? ==> t.rows[id].lockedAt.None? && t.rows[id].attempts < t.rows[id].maxAttempts)
  }

  /** One job run leaves the table tidy and strictly less to do. */
  lemma WorkFalls(t: Table, id: nat, now: Moment, staleLock: Duration, after: Moment, handler: Job -> Outcome)
    requires Tidy(t) && Selected(t.rows, now, now - staleLock, id)
    ensures
      var u := Worked(t, id, now, after, handler);
      && Tidy(u) && u.nextId == t.nextId
      && Work(u.rows, u.nextId) < Work(t.rows, t.nextId)
  {
    hide Ahead, Before, NotAfter, BackoffSpec, Work;
    var u := Worked(t, id, now, after, handler);
    assert t.rows[id].doneAt.None?;
    assert id in u.rows && Left(u.rows, id) < Left(t.rows, id);
    forall i | 0 <= i < t.nextId && i != id
      ensures Left(u.rows, i) == Left(t.rows, i)
    {
    }
    WorkOfOneRow(t.rows, u.rows, id, t.nextId);
  }

  /** The steps of one undisturbed RunOne among the workers. */
  function SoloSteps(w: Workers.World, worker: nat, id: nat, now: Moment, after: Moment, handler: Job -> Outcome): seq<Workers.Step>
    requires id in w.table.rows
  {
    var j := w.table.rows[id];
    [Workers.Claim(worker, now), Workers.Tick(after)]
    + (if j.kind == "jobs.cleanup" then [Workers.Cleanup(after)] else [])
    + [Workers.Complete(worker, handler(j))]
  }

  /** What RunOne does on its own is one run of the interleaved model: claim, handler, finish. */
  lemma RunOneIsARun(w: Workers.World, worker: nat, id: nat, now: Moment, after: Moment, handler: Job -> Outcome)
    requires worker !in w.flights && Selected(w.table.rows, now, now - w.staleLock, id)
    ensures Workers.Run(w, SoloSteps(w, worker, id, now, after, handler)).table == Worked(w.table, id, now, after, handler)
  {
    hide Ahead, Ready, Finish, Purge, Lock;
    var j := w.table.rows[id];
    var claim, tick, finish := Workers.Claim(worker, now), Workers.Tick(after), Workers.Complete(worker, handler(j));
    var clean := if j.kind == "jobs.cleanup" then [Workers.Cleanup(after)] else [];
    Workers.ClaimTakes(w, worker, now, id);
    Workers.RunAppend(w, [claim, tick] + clean, [finish]);
    Workers.RunAppend(w, [claim, tick], clean);
    StepByStep(w, claim, tick);
    var w2 := Workers.Do(Workers.Do(w, claim), tick);
    OneStep(w2, Workers.Cleanup(after));
    var w3 := Workers.Run(w2, clean);
    assert w3.flights == w2.flights;
    OneStep(w3, finish);
  }

  lemma OneStep(w: Workers.World, s: Workers.Step)
    ensures Workers.Run(w, [s]) == Workers.Do(w, s) && Workers.Run(w, []) == w
  {
    hide Workers.Do;
    assert [s][1..] == [];
    assert Workers.Run(w, [s]) == Workers.Run(Workers.Do(w, s), []);
  }

  lemma StepByStep(w: Workers.World, s: Workers.Step, t: Workers.Step)
    ensures Workers.Run(w, [s, t]) == Workers.Do(Workers.Do(w, s), t)
  {
    hide Workers.Do;
    assert [s, t][1..] == [t];
    OneStep(Workers.Do(w, s), t);
  }

  /**
   * When a job runs again after its finish: never once it succeeded or its attempts are used up, and
   * otherwise from the backoff on, as text compares it; so less than a second early at most.
   */
  lemma RunsAgainExactly(t: Table, id: nat, attempts: nat, maxAttempts: nat, result: Outcome, now: Moment, later: Instant, stale: Instant)
    requires id in t.rows && t.rows[id].doneAt.None?
    ensures
      var j := Finish(t, id, attempts, maxAttempts, result, now).rows[id];
      && (Ready(j, later, stale) <==> result.Failed? && attempts < maxAttempts && NotAfter(now + BackoffSpec(attempts), later))
      && (Ready(j, later, stale) ==> now + BackoffSpec(attempts) < later + SECOND)
  {
    hide NotAfter, Before, BackoffSpec;
    WithinASecond(now + BackoffSpec(attempts), later);
  }
}
