/**
 * How long a dedupe key makes a second enqueue a no-op (internal/jobs/jobs.go, Options and Cleanup): while
 * the row of the first one is there, and that is until a Cleanup meets it 30 days after it was finished.
 */
module Dedupe {
  import opened Basics
  import opened Timestamps
  import opened JobTable
  import DedupeKeys
  import Exclusion
  import opened Workers

  // ---- one row per key ----

  ghost predicate KeysOnce(rows: map<nat, Job>) {
    forall i, j | i in rows && j in rows && rows[i].key.Some? && rows[i].key == rows[j].key :: i == j
  }

  /** Rows keep their keys, and new rows get keys that are free. */
  lemma RowsKeepKeys(w: World, s: Step)
    requires IdsFresh(w.table)
    ensures
      var t, u := w.table, Do(w, s).table;
      && (forall i | i in u.rows && i in t.rows :: u.rows[i].key == t.rows[i].key)
      && (forall i | i in u.rows && i !in t.rows :: i == t.nextId && u.rows[i].key != Some("") && (u.rows[i].key.Some? ==> !KeyTaken(t.rows, u.rows[i].key.value)))
  {
    hide Ready, Ahead, DedupeKeys.EveryKey, Truncate, KeyTaken, BackoffSpec, Expired;
    if s.Claim? && Do(w, s) != w {
      var id := ClaimedId(w, s.worker, s.now);
    }
  }

  lemma KeysOnceDo(w: World, s: Step)
    requires IdsFresh(w.table) && KeysOnce(w.table.rows)
    ensures KeysOnce(Do(w, s).table.rows)
  {
    hide Do;
    RowsKeepKeys(w, s);
    DoneStep(w, s);
  }

  lemma {:induction false} KeysOnceRun(w: World, steps: seq<Step>)
    requires IdsFresh(w.table) && KeysOnce(w.table.rows)
    ensures IdsFresh(Run(w, steps).table) && KeysOnce(Run(w, steps).table.rows)
    decreases |steps|
  {
    hide Do, KeysOnce;
    if steps != [] {
      KeysOnceDo(w, steps[0]);
      DoneStep(w, steps[0]);
      KeysOnceRun(Do(w, steps[0]), steps[1..]);
    }
  }

  /** In every reachable state a dedupe key names one job at most. */
  lemma OneJobPerKey(staleLock: Duration, clock: Moment, steps: seq<Step>, i: nat, j: nat)
    ensures
      var rows := Run(Start(staleLock, clock), steps).table.rows;
      i in rows && j in rows && rows[i].key.Some? && rows[i].key == rows[j].key ==> i == j
  {
    hide Run;
    KeysOnceRun(Start(staleLock, clock), steps);
  }

  // ---- the life of a row ----

  /** Some Cleanup in the run meets row id and finds it finished for more than 30 days. */
  ghost predicate Purged(w: World, steps: seq<Step>, id: nat)
    decreases |steps|
  {
    steps != [] && (PurgedNow(w, steps[0], id) || Purged(Do(w, steps[0]), steps[1..], id))
  }

  predicate PurgedNow(w: World, s: Step, id: nat) {
    s.Cleanup? && id in w.table.rows && Expired(w.table.rows[id], s.now)
  }

  lemma GoesExactly(w: World, s: Step, id: nat)
    requires IdsFresh(w.table) && id < w.table.nextId
    ensures id in Do(w, s).table.rows <==> id in w.table.rows && !PurgedNow(w, s, id)
    ensures id < Do(w, s).table.nextId
  {
    hide Ready, Ahead, DedupeKeys.EveryKey, Truncate, KeyTaken, BackoffSpec, Expired;
    if s.Claim? && Do(w, s) != w {
      var claimed := ClaimedId(w, s.worker, s.now);
    }
  }

  /** Once gone, an id stays gone. */
  lemma {:induction false} GoneForever(w: World, steps: seq<Step>, id: nat)
    requires IdsFresh(w.table) && id < w.table.nextId && id !in w.table.rows
    ensures id !in Run(w, steps).table.rows && !Purged(w, steps, id)
    decreases |steps|
  {
    hide Do, Expired;
    if steps != [] {
      GoesExactly(w, steps[0], id);
      DoneStep(w, steps[0]);
      GoneForever(Do(w, steps[0]), steps[1..], id);
    }
  }

  /** A row is there after any steps exactly when no Cleanup among them met it expired; its key is the same. */
  lemma {:induction false} RowStaysExactly(w: World, steps: seq<Step>, id: nat)
    requires IdsFresh(w.table) && id in w.table.rows
    ensures id in Run(w, steps).table.rows <==> !Purged(w, steps, id)
    ensures id in Run(w, steps).table.rows ==> Run(w, steps).table.rows[id].key == w.table.rows[id].key
    decreases |steps|
  {
    hide Do, Expired;
    if steps != [] {
      var v := Do(w, steps[0]);
      GoesExactly(w, steps[0], id);
      DoneStep(w, steps[0]);
      if PurgedNow(w, steps[0], id) {
        GoneForever(v, steps[1..], id);
      } else {
        RowsKeepKeys(w, steps[0]);
        RowStaysExactly(v, steps[1..], id);
      }
    }
  }

  // ---- what an enqueue does ----

  /** An insert under a key does nothing exactly when some row has it; otherwise it adds one row. */
  lemma InsertExactly(t: Table, kind: string, key: string, runAt: Instant, n: nat)
    requires key != ""
    ensures Insert(t, kind, key, runAt, n) == t <==> KeyTaken(t.rows, key)
    ensures !KeyTaken(t.rows, key) ==> Insert(t, kind, key, runAt, n).rows == t.rows[t.nextId := Job(kind, Some(key), runAt, 0, n, None, None, None)]
  {
    hide KeyTaken;
  }

  /** The step offers a job under the key. */
  function Offers(w: World, s: Step, key: string): bool {
    (s.Enqueue? && s.key == key) || (s.Schedule? && DedupeKeys.EveryKey(s.every.kind, Unix(Truncate(w.clock, s.every.interval))) == key)
  }

  /** After row id went, nobody has enqueued under its key yet. */
  ghost predicate NotRefilled(w: World, steps: seq<Step>, id: nat, key: string)
    decreases |steps|
  {
    steps == [] || ((id !in w.table.rows ==> !Offers(w, steps[0], key)) && NotRefilled(Do(w, steps[0]), steps[1..], id, key))
  }

  /** A row that comes was offered under its key. */
  lemma NewRowOffered(w: World, s: Step, i: nat, key: string)
    requires IdsFresh(w.table) && i in Do(w, s).table.rows && i !in w.table.rows && Do(w, s).table.rows[i].key == Some(key)
    ensures Offers(w, s, key)
  {
    hide Ready, Ahead, DedupeKeys.EveryKey, Truncate, KeyTaken, BackoffSpec, Expired;
    if s.Claim? && Do(w, s) != w {
      var id := ClaimedId(w, s.worker, s.now);
    }
  }

  /** The key belongs to row id, or to nobody. */
  ghost predicate OnlyHolder(w: World, id: nat, key: string) {
    forall i | i in w.table.rows && w.table.rows[i].key == Some(key) :: i == id
  }

  lemma HolderStep(w: World, s: Step, id: nat, key: string)
    requires IdsFresh(w.table) && OnlyHolder(w, id, key)
    requires id in w.table.rows ==> w.table.rows[id].key == Some(key)
    requires id !in w.table.rows ==> !Offers(w, s, key)
    ensures OnlyHolder(Do(w, s), id, key)
  {
    hide Do, Offers;
    RowsKeepKeys(w, s);
    var v := Do(w, s);
    forall i | i in v.table.rows && v.table.rows[i].key == Some(key)
      ensures i == id
    {
      if i !in w.table.rows {
        NewRowOffered(w, s, i, key);
        if id in w.table.rows {
          assert KeyTaken(w.table.rows, key);
        }
      }
    }
  }

  lemma {:induction false} HolderRun(w: World, steps: seq<Step>, id: nat, key: string)
    requires IdsFresh(w.table) && OnlyHolder(w, id, key) && id < w.table.nextId
    requires id in w.table.rows ==> w.table.rows[id].key == Some(key)
    requires NotRefilled(w, steps, id, key)
    ensures OnlyHolder(Run(w, steps), id, key)
    decreases |steps|
  {
    hide Do, Offers, OnlyHolder;
    if steps != [] {
      HolderStep(w, steps[0], id, key);
      RowsKeepKeys(w, steps[0]);
      GoesExactly(w, steps[0], id);
      DoneStep(w, steps[0]);
      HolderRun(Do(w, steps[0]), steps[1..], id, key);
    }
  }

  function NewJob(kind: string, key: string, runAt: Moment, n: int): Job {
    Job(kind, Some(key), runAt, 0, AttemptsOrDefault(n), None, None, None)
  }

  /**
   * A key that a row holds makes a later enqueue under it a no-op exactly as long as no Cleanup met that
   * row expired; the first enqueue after one did inserts a new row. For every reachable state, row, and
   * steps in between, and any kind, time and attempts of the later job.
   */
  lemma NoOpExactly(staleLock: Duration, clock: Moment, before: seq<Step>, steps: seq<Step>, id: nat, key: string,
                    kind: string, runAt: Moment, n: int)
    ensures
      var w := Run(Start(staleLock, clock), before);
      var v := Run(w, steps);
      id in w.table.rows && w.table.rows[id].key == Some(key) && NotRefilled(w, steps, id, key) ==>
        && (Do(v, Enqueue(kind, key, runAt, n)) == v <==> !Purged(w, steps, id))
        && (Purged(w, steps, id) ==>
              (Do(v, Enqueue(kind, key, runAt, n)).table.rows == v.table.rows[v.table.nextId := NewJob(kind, key, runAt, n)]))
  {
    hide Run, NotRefilled, Purged;
    var w := Run(Start(staleLock, clock), before);
    var v := Run(w, steps);
    KeysRun(staleLock, clock, before);
    if id in w.table.rows && w.table.rows[id].key == Some(key) && NotRefilled(w, steps, id, key) {
      assert OnlyHolder(w, id, key);
      HolderRun(w, steps, id, key);
      RowStaysExactly(w, steps, id);
      InsertExactly(v.table, kind, key, runAt, AttemptsOrDefault(n));
      if id in v.table.rows {
        assert KeyTaken(v.table.rows, key);
      }
    }
  }

  lemma KeysRun(staleLock: Duration, clock: Moment, before: seq<Step>)
    ensures
      var w := Run(Start(staleLock, clock), before);
      && IdsFresh(w.table) && KeysOnce(w.table.rows)
      && forall i | i in w.table.rows :: w.table.rows[i].key != Some("")
  {
    hide Run;
    KeysOnceRun(Start(staleLock, clock), before);
    NamedRun(Start(staleLock, clock), before);
  }

  lemma {:induction false} NamedRun(w: World, steps: seq<Step>)
    requires IdsFresh(w.table) && forall i | i in w.table.rows :: w.table.rows[i].key != Some("")
    ensures forall i | i in Run(w, steps).table.rows :: Run(w, steps).table.rows[i].key != Some("")
    decreases |steps|
  {
    hide Do;
    if steps != [] {
      RowsKeepKeys(w, steps[0]);
      DoneStep(w, steps[0]);
      NamedRun(Do(w, steps[0]), steps[1..]);
    }
  }

  // ---- in days ----

  /** A row that went was finished, at the Cleanup that took it, for 30 days less a second at least. */
  lemma {:induction false} PurgedLate(w: World, steps: seq<Step>, id: nat) returns (i: nat)
    requires Purged(w, steps, id)
    ensures i < |steps| && steps[i].Cleanup?
    ensures
      var rows := Run(w, steps[..i]).table.rows;
      id in rows && rows[id].doneAt.Some? && rows[id].doneAt.value + 30 * DAY < steps[i].now + SECOND
    decreases |steps|
  {
    hide Do, Expired;
    if PurgedNow(w, steps[0], id) {
      i := 0;
      ExpiredExactly(w.table.rows[id], steps[0].now);
    } else {
      var k := PurgedLate(Do(w, steps[0]), steps[1..], id);
      i := k + 1;
      assert steps[..i][1..] == steps[1..][..k] && steps[..i][0] == steps[0];
    }
  }

  /** Done no earlier than t, if at all. */
  predicate DoneSince(w: World, id: nat, t: Instant) {
    t <= w.clock && (id in w.table.rows && w.table.rows[id].doneAt.Some? ==> t <= w.table.rows[id].doneAt.value)
  }

  lemma DoneSinceDo(w: World, s: Step, id: nat, t: Instant)
    requires IdsFresh(w.table) && id < w.table.nextId && DoneSince(w, id, t) && NoRewind(w, s)
    ensures DoneSince(Do(w, s), id, t) && w.clock <= Do(w, s).clock
  {
    hide Ready, Ahead, DedupeKeys.EveryKey, Truncate, KeyTaken, BackoffSpec, Expired;
    if s.Claim? && Do(w, s) != w {
      var claimed := ClaimedId(w, s.worker, s.now);
    }
  }

  ghost predicate ClockRun(w: World, steps: seq<Step>)
    decreases |steps|
  {
    steps == [] || (NoRewind(w, steps[0]) && ClockRun(Do(w, steps[0]), steps[1..]))
  }

  /**
   * With a clock that does not go back, a row that is unfinished, or was finished no earlier than t, is
   * there until 30 days less a second after t; so for that long an enqueue under its key is a no-op, and
   * for ever while the job is unfinished.
   */
  lemma {:induction false} StaysThirtyDays(w: World, steps: seq<Step>, id: nat, t: Instant)
    requires IdsFresh(w.table) && id in w.table.rows && DoneSince(w, id, t) && ClockRun(w, steps)
    requires Run(w, steps).clock + SECOND <= t + 30 * DAY
    ensures id in Run(w, steps).table.rows && Run(w, steps).table.rows[id].key == w.table.rows[id].key
    ensures w.clock <= Run(w, steps).clock
    decreases |steps|
  {
    hide Do, Expired;
    ClockForward(w, steps);
    if steps != [] {
      var s, v := steps[0], Do(w, steps[0]);
      DoneSinceDo(w, s, id, t);
      ClockForward(v, steps[1..]);
      GoesExactly(w, s, id);
      DoneStep(w, s);
      RowsKeepKeys(w, s);
      if s.Cleanup? {
        ExpiredExactly(w.table.rows[id], s.now);
      }
      StaysThirtyDays(v, steps[1..], id, t);
    }
  }

  lemma {:induction false} ClockForward(w: World, steps: seq<Step>)
    requires ClockRun(w, steps)
    ensures w.clock <= Run(w, steps).clock
    decreases |steps|
  {
    if steps != [] {
      ClockForward(Do(w, steps[0]), steps[1..]);
    }
  }

  // ---- not for ever ----

  /** A job under a key, run, cleaned up a month later, and enqueued under the same key again. */
  function AMonthLater(kind: string, key: string, clock: Moment, later: Moment): seq<Step> {
    [Enqueue(kind, key, clock, 0), Claim(0, clock), Complete(0, Succeeded)] + [Tick(later), Cleanup(later), Enqueue(kind, key, later, 0)]
  }

  /** The second enqueue is no no-op: the documentation's "forever" ends with the Cleanup. */
  lemma NotForever(staleLock: Duration, kind: string, key: string, clock: Moment, later: Moment)
    requires key != "" && clock + 30 * DAY + SECOND <= later
    ensures
      var t := Run(Start(staleLock, clock), AMonthLater(kind, key, clock, later)).table;
      t.rows == map[1 := Job(kind, Some(key), later, 0, DEFAULT_ATTEMPTS, None, None, None)]
  {
    hide Before, Ready, NotAfter, Selected, Do;
    var steps := AMonthLater(kind, key, clock, later);
    var first, second := steps[..3], steps[3..];
    var w0 := Start(staleLock, clock);
    RunAppend(w0, first, second);
    assert steps == first + second;
    FirstRun(staleLock, kind, key, clock);
    var w3 := Run(w0, first);
    Exclusion.RunThree(w3, second[0], second[1], second[2]);
    SecondRun(w3, kind, key, clock, later);
  }

  lemma FirstRun(staleLock: Duration, kind: string, key: string, clock: Moment)
    requires key != ""
    ensures
      var w := Run(Start(staleLock, clock), [Enqueue(kind, key, clock, 0), Claim(0, clock), Complete(0, Succeeded)]);
      w.table == Table(map[0 := Job(kind, Some(key), clock, 1, DEFAULT_ATTEMPTS, None, Some(clock), None)], 1)
  {
    hide Before, Ready, NotAfter, Selected;
    var w0 := Start(staleLock, clock);
    Exclusion.RunThree(w0, Enqueue(kind, key, clock, 0), Claim(0, clock), Complete(0, Succeeded));
    var w1 := Do(w0, Enqueue(kind, key, clock, 0));
    assert w1.table == Table(map[0 := Job(kind, Some(key), clock, 0, DEFAULT_ATTEMPTS, None, None, None)], 1);
    Exclusion.DueAtOnce(w1, clock);
    ClaimTakes(w1, 0, clock, 0);
  }

  lemma SecondRun(w: World, kind: string, key: string, clock: Moment, later: Moment)
    requires key != "" && clock + 30 * DAY + SECOND <= later
    requires w.table == Table(map[0 := Job(kind, Some(key), clock, 1, DEFAULT_ATTEMPTS, None, Some(clock), None)], 1)
    ensures Do(Do(Do(w, Tick(later)), Cleanup(later)), Enqueue(kind, key, later, 0)).table ==
      Table(map[1 := Job(kind, Some(key), later, 0, DEFAULT_ATTEMPTS, None, None, None)], 2)
  {
    hide Expired;
    ExpiredExactly(w.table.rows[0], later);
    var v := Do(Do(w, Tick(later)), Cleanup(later));
    assert v.table == Table(map[], 1);
  }
}
