/**
 * Exactly when two workers come to hold one job (internal/jobs/jobs.go, RunOne): when a claim selects a
 * row whose worker is still running, which takes a lock that is stale as text compares it. A run that
 * does this exists, whatever the stale limit.
 */
module Exclusion {
  import opened Basics
  import opened Timestamps
  import opened JobTable
  import opened Workers

  /** No two workers in flight run the same job. */
  ghost predicate NoSharing(w: World) {
    forall k, l | k in w.flights && l in w.flights && k != l :: w.flights[k].id != w.flights[l].id
  }

  /** The step is a free worker's claim of the row that worker k is running. */
  ghost predicate StealsFrom(w: World, s: Step, k: nat) {
    && s.Claim? && s.worker !in w.flights && k in w.flights
    && Selected(w.table.rows, s.now, s.now - w.staleLock, w.flights[k].id)
  }

  ghost predicate Steals(w: World, s: Step) { exists k :: StealsFrom(w, s, k) }

  lemma StealShares(w: World, s: Step, k: nat)
    requires StealsFrom(w, s, k)
    ensures !NoSharing(Do(w, s))
  {
    hide Ready, Ahead;
    ClaimTakes(w, s.worker, s.now, w.flights[k].id);
    var v := Do(w, s);
    assert v.flights[s.worker].id == v.flights[k].id;
  }

  lemma OthersKeepApart(w: World, s: Step)
    requires Exclusive(w) && !Steals(w, s)
    ensures Exclusive(Do(w, s))
  {
    hide Do, Exclusive;
    if s.Claim? {
      if Do(w, s) != w {
        ClaimKeepsApart(w, s);
      }
    } else {
      ExclusiveStep(w, s);
    }
  }

  lemma ClaimKeepsApart(w: World, s: Step)
    requires Exclusive(w) && !Steals(w, s) && s.Claim? && Do(w, s) != w
    ensures Exclusive(Do(w, s))
  {
    hide Selected;
    DoneStep(w, s);
    var v := Do(w, s);
    var id := ClaimedId(w, s.worker, s.now);
    ReadyIsUnfinished(w.table.rows, s.now, s.now - w.staleLock, id);
    forall k | k in w.flights
      ensures w.flights[k].id != id && Holds(v, k)
    {
      assert !StealsFrom(w, s, k);
      assert Holds(w, k);
    }
  }

  /** A lock that is stolen is one taken before the stale limit, as text compares them. */
  lemma StolenIsStale(w: World, s: Step, k: nat)
    requires Exclusive(w) && StealsFrom(w, s, k)
    ensures Before(w.flights[k].at, s.now - w.staleLock)
    ensures w.flights[k].at + w.staleLock < s.now + SECOND
  {
    hide Before, Ahead, NotAfter;
    assert Holds(w, k);
    WithinASecond(w.flights[k].at, s.now - w.staleLock);
  }

  /**
   * While nothing was stolen, a step makes two workers hold one job exactly when it is a free worker's
   * claim of the row another one is running; and that one's lock is then older than the stale limit.
   */
  lemma LostExactly(w: World, s: Step)
    requires Exclusive(w)
    ensures NoSharing(Do(w, s)) <==> !Steals(w, s)
    ensures forall k | StealsFrom(w, s, k) :: Before(w.flights[k].at, s.now - w.staleLock)
  {
    hide Before, Do, Selected;
    if Steals(w, s) {
      var k :| StealsFrom(w, s, k);
      StealShares(w, s, k);
    } else {
      OthersKeepApart(w, s);
    }
    forall k | StealsFrom(w, s, k)
      ensures Before(w.flights[k].at, s.now - w.staleLock)
    {
      StolenIsStale(w, s, k);
    }
  }

  // ---- over whole runs ----

  ghost predicate NeverShares(w: World, steps: seq<Step>)
    decreases |steps|
  {
    NoSharing(w) && (steps == [] || NeverShares(Do(w, steps[0]), steps[1..]))
  }

  ghost predicate NeverSteals(w: World, steps: seq<Step>)
    decreases |steps|
  {
    steps == [] || (!Steals(w, steps[0]) && NeverSteals(Do(w, steps[0]), steps[1..]))
  }

  lemma {:induction false} NeverSharesExactly(w: World, steps: seq<Step>)
    requires Exclusive(w)
    ensures NeverShares(w, steps) <==> NeverSteals(w, steps)
    decreases |steps|
  {
    hide Do, Steals, Holds;
    if steps != [] {
      LostExactly(w, steps[0]);
      if Steals(w, steps[0]) {
        SharingNow(Do(w, steps[0]), steps[1..]);
      } else {
        OthersKeepApart(w, steps[0]);
        NeverSharesExactly(Do(w, steps[0]), steps[1..]);
      }
    }
  }

  lemma SharingNow(w: World, steps: seq<Step>)
    requires !NoSharing(w)
    ensures !NeverShares(w, steps)
  {
  }

  /** Over any run no job ever has two workers, exactly when no claim takes a row still being run. */
  lemma ExclusiveExactly(staleLock: Duration, clock: Moment, steps: seq<Step>)
    ensures NeverShares(Start(staleLock, clock), steps) <==> NeverSteals(Start(staleLock, clock), steps)
  {
    NeverSharesExactly(Start(staleLock, clock), steps);
  }

  // ---- it happens ----

  /** One job, claimed, and claimed again after the stale limit while its worker still runs. */
  function SlowHandler(kind: string, clock: Moment, later: Moment): seq<Step> {
    [Enqueue(kind, "", clock, 3), Claim(0, clock), Claim(1, later)]
  }

  lemma RunThree(w: World, s0: Step, s1: Step, s2: Step)
    ensures Run(w, [s0, s1, s2]) == Do(Do(Do(w, s0), s1), s2)
  {
    hide Do;
    assert [s0, s1, s2][1..] == [s1, s2] && [s1, s2][1..] == [s2] && [s2][1..] == [];
    assert Run(w, [s0, s1, s2]) == Run(Do(w, s0), [s1, s2]);
    assert Run(Do(w, s0), [s1, s2]) == Run(Do(Do(w, s0), s1), [s2]);
    assert Run(Do(Do(w, s0), s1), [s2]) == Run(Do(Do(Do(w, s0), s1), s2), []);
  }

  lemma OnlyRow(t: Table, now: Moment, stale: Instant)
    requires t.rows.Keys == {0} && Ready(t.rows[0], now, stale)
    ensures Selected(t.rows, now, stale, 0)
  {
    hide Ready, Before;
  }

  /**
   * For every stale limit, a handler that runs a second longer than it is reached by a run in which two
   * workers hold one job; whatever the first worker's outcome, its finish then unlocks the row of the
   * second, which is still running it.
   */
  lemma SlowHandlerShares(kind: string, staleLock: Duration, clock: Moment, later: Moment, result: Outcome)
    requires clock + staleLock + SECOND <= later
    ensures
      var w := Run(Start(staleLock, clock), SlowHandler(kind, clock, later));
      var after := Do(w, Complete(0, result));
      && 0 in w.flights && 1 in w.flights && w.flights[0].id == w.flights[1].id == 0
      && 1 in after.flights && 0 in after.table.rows && after.table.rows[0].lockedAt == None
  {
    hide Before, Ready, NotAfter, Selected;
    var steps := SlowHandler(kind, clock, later);
    RunThree(Start(staleLock, clock), steps[0], steps[1], steps[2]);
    var w1 := Do(Start(staleLock, clock), steps[0]);
    assert w1.table.rows == map[0 := Job(kind, None, clock, 0, 3, None, None, None)];
    DueAtOnce(w1, clock);
    ClaimTakes(w1, 0, clock, 0);
    var w2 := Do(w1, steps[1]);
    StaleIsReady(w2, clock, later);
    StaleFinishClearsLock(w2, 0, 1, later, result);
  }

  lemma DueAtOnce(w: World, now: Moment)
    requires w.table.rows.Keys == {0}
    requires w.table.rows[0].doneAt.None? && w.table.rows[0].lockedAt.None? && w.table.rows[0].runAt == now
    ensures Selected(w.table.rows, now, now - w.staleLock, 0)
  {
    hide Time, Less, Ahead;
    NotBeforeItself(now);
    OnlyRow(w.table, now, now - w.staleLock);
  }

  lemma StaleIsReady(w: World, at: Moment, later: Moment)
    requires w.table.rows.Keys == {0} && at + w.staleLock + SECOND <= later
    requires w.table.rows[0].doneAt.None? && w.table.rows[0].lockedAt == Some(at) && w.table.rows[0].runAt == at
    ensures Selected(w.table.rows, later, later - w.staleLock, 0)
  {
    hide Before, NotAfter;
    WithinASecond(at, later - w.staleLock);
    WithinASecond(at, later);
    OnlyRow(w.table, later, later - w.staleLock);
  }
}
