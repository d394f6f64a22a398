/**
 * The jobs table and the statements that change it (internal/jobs/jobs.go), as functions on the
 * table. The class Jobs.Queue runs these statements; Workers interleaves them.
 */
module JobTable {
  import opened Basics
  import opened Timestamps

  /** An instant with room around it for the intervals the program adds and subtracts. */
  type Moment = t: int | 1000 * DAY <= t < (DAYS - 1000) * DAY witness 1000 * DAY
  type Duration = d: int | 0 <= d <= 100 * DAY

  const HOUR: int := 3600 * SECOND
  const DEFAULT_ATTEMPTS: nat := 5
  const RETENTION: int := 30 * DAY

  datatype Job = Job(
    kind: string, key: Option<string>, runAt: Instant, attempts: nat, maxAttempts: nat,
    lockedAt: Option<Instant>, doneAt: Option<Instant>, lastError: Option<string>)

  /** The rows by id, and the id the next insert gets. */
  datatype Table = Table(rows: map<nat, Job>, nextId: nat)

  const EMPTY: Table := Table(map[], 0)

  /** Ids are handed out once, so a later row under an id is the same job. */
  ghost predicate IdsFresh(t: Table) { forall id | id in t.rows :: id < t.nextId }

  datatype Outcome = Succeeded | Failed(error: string)

  // ---- selecting a job ----

  /** The WHERE clause of the claim: unfinished, due, and not locked or locked before `stale`. */
  predicate Ready(j: Job, now: Instant, stale: Instant) {
    j.doneAt.None? && NotAfter(j.runAt, now) && (j.lockedAt.None? || Before(j.lockedAt.value, stale))
  }

  /** ORDER BY run_at, id. */
  predicate Ahead(rows: map<nat, Job>, i: nat, k: nat)
    requires i in rows && k in rows
  {
    Before(rows[i].runAt, rows[k].runAt) || (rows[i].runAt == rows[k].runAt && i <= k)
  }

  /** The row that LIMIT 1 returns. */
  predicate Selected(rows: map<nat, Job>, now: Instant, stale: Instant, id: nat) {
    && id in rows && Ready(rows[id], now, stale)
    && forall k | k in rows && Ready(rows[k], now, stale) :: Ahead(rows, id, k)
  }

  lemma AheadTotal(rows: map<nat, Job>, i: nat, k: nat)
    requires i in rows && k in rows
    ensures Ahead(rows, i, k) || Ahead(rows, k, i)
    ensures Ahead(rows, i, k) && Ahead(rows, k, i) ==> i == k
  {
    hide Before;
    var a, b := rows[i].runAt, rows[k].runAt;
    if a < b {
      TextOrder(a, b);
    } else if b < a {
      TextOrder(b, a);
    } else {
      WithinASecond(a, a);
      NotBeforeItself(a);
    }
  }

  lemma NotBeforeItself(a: Instant)
    ensures !Before(a, a)
  {
    LessIrreflexive(Time(a));
  }

  lemma AheadTransitive(rows: map<nat, Job>, i: nat, k: nat, l: nat)
    requires i in rows && k in rows && l in rows
    requires Ahead(rows, i, k) && Ahead(rows, k, l)
    ensures Ahead(rows, i, l)
  {
    var a, b, c := Time(rows[i].runAt), Time(rows[k].runAt), Time(rows[l].runAt);
    if Less(a, b) && Less(b, c) {
      LessTransitive(a, b, c);
    }
  }

  lemma {:induction false} SmallestOf(rows: map<nat, Job>, ids: set<nat>) returns (id: nat)
    requires ids != {} && ids <= rows.Keys
    ensures id in ids && forall k | k in ids :: Ahead(rows, id, k)
    decreases |ids|
  {
    hide Before;
    var i :| i in ids;
    if ids == {i} {
      id := i;
      AheadTotal(rows, i, i);
    } else {
      var rest := SmallestOf(rows, ids - {i});
      AheadTotal(rows, i, rest);
      AheadTotal(rows, i, i);
      id := if Ahead(rows, i, rest) then i else rest;
      forall k | k in ids
        ensures Ahead(rows, id, k)
      {
        if id == i && k != i {
          AheadTransitive(rows, i, rest, k);
        }
      }
    }
  }

  /** The claim finds a row exactly when one is ready, and then exactly one. */
  lemma SelectedExists(rows: map<nat, Job>, now: Instant, stale: Instant)
    ensures (exists id :: Selected(rows, now, stale, id)) <==> (exists k :: k in rows && Ready(rows[k], now, stale))
  {
    hide Ahead, Ready;
    if k :| k in rows && Ready(rows[k], now, stale) {
      var ready := set i | i in rows && Ready(rows[i], now, stale);
      assert k in ready;
      var id := SmallestOf(rows, ready);
      assert Selected(rows, now, stale, id);
    }
  }

  lemma SelectedIsReady(rows: map<nat, Job>, now: Instant, stale: Instant)
    ensures forall id | Selected(rows, now, stale, id) :: id in rows && Ready(rows[id], now, stale)
  {
  }

  lemma SelectedUnique(rows: map<nat, Job>, now: Instant, stale: Instant, i: nat, k: nat)
    requires Selected(rows, now, stale, i) && Selected(rows, now, stale, k)
    ensures i == k
  {
    hide Ahead, Ready;
    AheadTotal(rows, i, k);
  }

  /**
   * Which job that is: the earliest by the second, the lowest id among those due at one instant, and never
   * one whose text sorts after that of another ready job.
   */
  lemma SelectedFirst(rows: map<nat, Job>, now: Instant, stale: Instant, id: nat, k: nat)
    requires Selected(rows, now, stale, id) && k in rows && Ready(rows[k], now, stale)
    ensures !Less(Time(rows[k].runAt), Time(rows[id].runAt))
    ensures rows[id].runAt / SECOND <= rows[k].runAt / SECOND && rows[id].runAt < rows[k].runAt + SECOND
    ensures rows[id].runAt == rows[k].runAt ==> id <= k
  {
    hide Ready, Less, Time;
    var a, b := rows[id].runAt, rows[k].runAt;
    NotBeforeItself(a);
    if b / SECOND < a / SECOND {
      EarlierSecondSortsFirst(b, a);
    }
    if Less(Time(b), Time(a)) {
      LessTransitive(Time(a), Time(b), Time(a));
    }
  }

  /** When a job is ready, as times: unfinished, due, and unlocked or locked too long ago, up to a second. */
  lemma ReadyMeans(j: Job, now: Instant, stale: Instant)
    ensures Ready(j, now, stale) ==>
      j.doneAt.None? && j.runAt < now + SECOND && (j.lockedAt.None? || j.lockedAt.value < stale + SECOND)
    ensures j.doneAt.None? && j.runAt + SECOND <= now && (j.lockedAt.None? || j.lockedAt.value + SECOND <= stale) ==> Ready(j, now, stale)
    ensures j.doneAt.None? && j.runAt == now && j.lockedAt.None? ==> Ready(j, now, stale)
  {
    hide Before, NotAfter;
    WithinASecond(j.runAt, now);
    DueAtOnce(now);
    if j.lockedAt.Some? {
      WithinASecond(j.lockedAt.value, stale);
    }
  }

  lemma DueAtOnce(a: Instant)
    ensures NotAfter(a, a)
  {
    hide Less, Time;
    LessIrreflexive(Time(a));
  }

  // ---- the statements ----

  predicate KeyTaken(rows: map<nat, Job>, key: string) {
    exists i :: i in rows && rows[i].key == Some(key)
  }

  /** INSERT ... ON CONFLICT(dedupe_key) DO NOTHING; an empty key is NULL and never conflicts. */
  function Insert(t: Table, kind: string, key: string, runAt: Instant, maxAttempts: nat): Table {
    if key != "" && KeyTaken(t.rows, key) then t
    else
      var k := if key == "" then None else Some(key);
      Table(t.rows[t.nextId := Job(kind, k, runAt, 0, maxAttempts, None, None, None)], t.nextId + 1)
  }

  function AttemptsOrDefault(n: int): nat { if n <= 0 then DEFAULT_ATTEMPTS else n }

  /** UPDATE jobs SET locked_at, attempts WHERE id. */
  function Lock(t: Table, id: nat, now: Instant, attempts: nat): Table {
    if id !in t.rows then t
    else t.(rows := t.rows[id := t.rows[id].(lockedAt := Some(now), attempts := attempts)])
  }

  /** The largest power of the schedule that int64 nanoseconds must hold. */
  function BackoffSpec(attempt: int): (d: Duration)
    ensures 30 * SECOND <= d <= 6 * HOUR
  {
    if attempt <= 1 then 30 * SECOND else Min(4 * BackoffSpec(attempt - 1), 6 * HOUR)
  }

  /** The finish transaction: done, dead, or due again after the backoff. */
  function Finish(t: Table, id: nat, attempts: nat, maxAttempts: nat, result: Outcome, now: Moment): Table {
    if id !in t.rows then t
    else
      var j := t.rows[id].(lockedAt := None);
      var j' :=
        match result
        case Succeeded => j.(doneAt := Some(now), lastError := None)
        case Failed(e) =>
          if attempts >= maxAttempts then j.(doneAt := Some(now), lastError := Some("dead: " + e))
          else j.(runAt := now + BackoffSpec(attempts), lastError := Some(e));
      t.(rows := t.rows[id := j'])
  }

  predicate Expired(j: Job, now: Moment) {
    j.doneAt.Some? && Before(j.doneAt.value, now - RETENTION)
  }

  /** DELETE FROM jobs WHERE done_at IS NOT NULL AND done_at < now - 30 days. */
  function Purge(t: Table, now: Moment): Table {
    t.(rows := map i | i in t.rows && !Expired(t.rows[i], now) :: t.rows[i])
  }

  /** Cleanup takes no row before 30 days less a second after it was done, and every row a second after 30 days. */
  lemma ExpiredExactly(j: Job, now: Moment)
    ensures Expired(j, now) ==> j.doneAt.Some? && j.doneAt.value + 30 * DAY < now + SECOND
    ensures j.doneAt.Some? && j.doneAt.value + 30 * DAY + SECOND <= now ==> Expired(j, now)
  {
    hide Before, NotAfter;
    if j.doneAt.Some? {
      WithinASecond(j.doneAt.value, now - 30 * DAY);
    }
  }

  // ---- recurring work ----

  datatype Recurring = Recurring(kind: string, interval: Duration)

  /** Go counts time.Truncate from 0001-01-01, the zero time. */
  const ZERO_TIME: int := 366 * DAY
  const UNIX_EPOCH: int := 719_528 * DAY

  /** time.Truncate: the last multiple of d since the zero time; d <= 0 changes nothing. */
  function Truncate(t: Moment, d: Duration): (b: Instant)
    ensures b <= t && (d > 0 ==> t < b + d)
  {
    if d == 0 then t else
      var n := (t - ZERO_TIME) / d;
      assert t - ZERO_TIME == d * n + (t - ZERO_TIME) % d;
      ZERO_TIME + d * n
  }

  /** Buckets of whole-second intervals fall on whole seconds. */
  lemma WholeBucket(t: Moment, d: Duration)
    requires d > 0 && d % SECOND == 0
    ensures Truncate(t, d) % SECOND == 0
  {
    var n, e := (t - ZERO_TIME) / d, d / SECOND;
    assert d * n == SECOND * (e * n);
    assert Truncate(t, d) == SECOND * (366 * 86400 + e * n);
  }

  lemma UnixInjective(a: Instant, b: Instant)
    requires a % SECOND == 0 && b % SECOND == 0
    ensures Unix(a) == Unix(b) ==> a == b
  {
  }

  function Unix(t: Instant): int { t / SECOND - UNIX_EPOCH / SECOND }

  /** The intervals and the two origins, as texts that denote them. */
  lemma KnownInstants()
    ensures ParseTime("0001-01-01T00:00:00Z") == Some(ZERO_TIME)
    ensures ParseTime("1970-01-01T00:00:00Z") == Some(UNIX_EPOCH)
    ensures ParseTime("1970-01-02T01:00:01Z") == Some(UNIX_EPOCH + DAY + HOUR + SECOND)
  {
    hide ParseTime, Value, DateText, AllDigits, TwoFigures, DaysBeforeYear, Civil.Valid, Civil.Seconds;
    TextsAre();
    SmallFigures();
    SecondsOfYear(1);
    SecondsOfYear(1970);
    NextMorning();
    Reads("0001", "01", "01", "00", "00", "00", Civil(1, 1, 1, 0, 0, 0));
    Reads("1970", "01", "01", "00", "00", "00", Civil(1970, 1, 1, 0, 0, 0));
    Reads("1970", "01", "02", "01", "00", "01", Civil(1970, 1, 2, 1, 0, 1));
  }

  lemma SecondsOfYear(y: nat)
    requires y < 10000
    ensures
      var c := Civil(y, 1, 1, 0, 0, 0);
      c.Valid() && c.Seconds() == 86400 * (365 * y + (y + 3) / 4 - (y + 99) / 100 + (y + 399) / 400)
  {
    hide DaysBeforeYear;
    GregorianYears(y);
  }

  lemma SameMonth(c: Civil, d: Civil)
    requires c.Valid() && d.Valid() && d.year == c.year && d.month == c.month
    ensures d.Seconds() - c.Seconds() == 86400 * (d.day - c.day) + d.TimeOfDay() - c.TimeOfDay()
  {
    hide DaysBeforeYear, DaysBeforeMonth, Civil.Valid, Civil.TimeOfDay;
  }

  lemma January(y: nat, day: nat, hour: nat, second: nat)
    requires y < 10000 && 1 <= day <= 31 && hour < 24 && second < 60
    ensures Civil(y, 1, day, hour, 0, second).Valid() && Civil(y, 1, day, hour, 0, second).TimeOfDay() == 3600 * hour + second
  {
    hide DaysBeforeYear, DaysBeforeMonth;
    MonthLengths(y, 1);
  }

  lemma NextMorning()
    ensures
      var c, d := Civil(1970, 1, 1, 0, 0, 0), Civil(1970, 1, 2, 1, 0, 1);
      c.Valid() && d.Valid() && d.Seconds() == c.Seconds() + 86400 + 3600 + 1
  {
    hide Civil.Valid, Civil.Seconds, Civil.TimeOfDay;
    January(1970, 1, 0, 0);
    January(1970, 2, 1, 1);
    SameMonth(Civil(1970, 1, 1, 0, 0, 0), Civil(1970, 1, 2, 1, 0, 1));
  }

  lemma SmallFigures()
    ensures Value("00") == 0 && Value("01") == 1 && Value("02") == 2 && Value("0001") == 1 && Value("1970") == 1970
    ensures TwoFigures("00") && TwoFigures("01") && TwoFigures("02") && AllDigits("0001") && AllDigits("1970")
  {
    assert "00"[..1] == "0" && "01"[..1] == "0" && "02"[..1] == "0" && "0"[..0] == "";
    assert "0001"[..3] == "000" && "000"[..2] == "00";
    assert "1970"[..3] == "197" && "197"[..2] == "19" && "19"[..1] == "1" && "1"[..0] == "";
  }

  lemma TextsAre()
    ensures DateText("0001", "01", "01", "00", "00", "00") == "0001-01-01T00:00:00Z"
    ensures DateText("1970", "01", "01", "00", "00", "00") == "1970-01-01T00:00:00Z"
    ensures DateText("1970", "01", "02", "01", "00", "01") == "1970-01-02T01:00:01Z"
  {
  }

  /** A bucket is a whole number of intervals after the zero time of Go. */
  lemma BucketAligned(t: Moment, d: Duration)
    requires d > 0
    ensures (Truncate(t, d) - ZERO_TIME) % d == 0 && Truncate(t, d) <= t < Truncate(t, d) + d
  {
    var n := (t - ZERO_TIME) / d;
    assert Truncate(t, d) - ZERO_TIME == d * n;
    NoRemainder(d, n);
  }

  lemma NoRemainder(d: int, n: int)
    requires d > 0
    ensures (d * n) % d == 0
  {
    var q, r := (d * n) / d, (d * n) % d;
    assert d * (n - q) == r;
    NonzeroMultiple(d, n - q);
  }
}
