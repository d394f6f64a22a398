/**
 * Two requests for the same change (internal/web/deliverables.go, "two concurrent clicks cannot both
 * succeed"; internal/web/portal.go, internal/web/invoices.go): once one of them committed, the other one is
 * refused, however long it waits and whatever happens meanwhile.
 */
module Races {
  import opened Basics
  import opened Timestamps
  import opened JobTable
  import opened Domain
  import opened Schema
  import opened Requests
  import opened Identity
  import opened Approval
  import opened Progress
  import opened FileLife
  import Closing

  /** The request changes version v only if it is still in state `from`. */
  predicate Expects(r: Pending, v: Id, from: VersionState)
    requires r.Request?
  {
    || ((r.intent.Share? || r.intent.Withdraw?) && r.intent.version == v && r.seen.SeenVersion? && r.seen.state == from)
    || (r.intent.Answer? && r.intent.version == v && from == Shared)
    || (r.intent.DropVersion? && r.intent.version == v && from == Draft)
  }

  /** Version v has left the state for good, or is gone for good. */
  ghost predicate Past(w: World, v: Id, from: VersionState) {
    Settled(w, v) && (v in w.db.versions ==> from.Rank() < w.db.versions[v].state.Rank())
  }

  lemma SettledStep(w: World, s: Step, x: Id)
    requires Settled(w, x)
    ensures Settled(Do(w, s), x)
  {
    hide Do, NewIds, See;
    var u := Do(w, s);
    IdsGrow(w, s);
    forall t | t in u.pending
      ensures !Draws(u.pending[t], x)
    {
      Closing.RequestsAfter(w, s, t);
      if t in w.pending {
        assert !Draws(w.pending[t], x);
      }
    }
  }

  lemma IdsGrow(w: World, s: Step)
    ensures w.usedIds <= Do(w, s).usedIds
  {
    hide See, Transact, NewIds, NoticeOf, Due, Held, ValidKey;
  }

  /** Nothing a step does takes a version or an invoice back. */
  lemma ForwardStep(w: World, s: Step, x: Id)
    requires Reachable(w) && Settled(w, x)
    ensures x in Do(w, s).db.versions ==> x in w.db.versions && Later(w.db.versions[x], Do(w, s).db.versions[x])
    ensures x in Do(w, s).db.invoices ==>
      x in w.db.invoices && w.db.invoices[x].status.Rank() <= Do(w, s).db.invoices[x].status.Rank()
  {
    hide Reachable, Do, Transact, Later;
    if s.Commit? && s.ticket in w.pending && w.pending[s.ticket].Request? {
      assert !Draws(w.pending[s.ticket], x);
      TransactForward(w, s.ticket);
      Closing.CommitDb(w, s.ticket);
    } else {
      RecordsStay(w, s);
      ItselfLater(w.db, x);
    }
  }

  lemma ItselfLater(db: Db, v: Id)
    ensures v in db.versions ==> Later(db.versions[v], db.versions[v])
  {
  }

  lemma RecordsStay(w: World, s: Step)
    requires !(s.Commit? && s.ticket in w.pending && w.pending[s.ticket].Request?)
    ensures Do(w, s).db.versions == w.db.versions && Do(w, s).db.invoices == w.db.invoices
  {
    hide Do;
    if s.PurgeRow? {
      Closing.PurgeRowFiles(w, s.purger);
    } else if s.Commit? {
      Closing.NoCommit(w, s.ticket);
    } else {
      Closing.OtherKeepsDb(w, s);
    }
  }

  lemma {:induction false} PastForever(w: World, steps: seq<Step>, v: Id, from: VersionState)
    requires Reachable(w) && Past(w, v, from)
    ensures Reachable(Run(w, steps)) && Past(Run(w, steps), v, from)
    decreases |steps|
  {
    hide Reachable, Do, Settled;
    if steps != [] {
      SettledStep(w, steps[0], v);
      ForwardStep(w, steps[0], v);
      ReachableDo(w, steps[0]);
      PastForever(Do(w, steps[0]), steps[1..], v, from);
    }
  }

  lemma InUse(w: World, x: Id)
    requires Distinct(w) && (x in w.db.versions || x in w.db.invoices)
    ensures Settled(w, x)
  {
    hide NewIds;
    forall t | t in w.pending
      ensures !Draws(w.pending[t], x)
    {
      if w.pending[t].Request? {
        assert Fresh(w, t);
      }
    }
  }

  /** The version is gone, or past the state it was in. */
  ghost predicate MovedPast(db: Db, db': Db, v: Id, from: VersionState) {
    v in db.versions && (v in db'.versions ==> from.Rank() < db'.versions[v].state.Rank())
  }

  lemma MoveMovesPast(db: Db, v: Id, from: VersionState, to: VersionState, id: Id)
    requires from.Rank() < to.Rank()
    ensures MoveVersion(db, v, from, to).Committed? ==> MovedPast(db, MoveVersion(db, v, from, to).db, v, from)
    ensures from.Shared? && Decide(db, v, to, id).Committed? ==> MovedPast(db, Decide(db, v, to, id).db, v, from)
  {
  }

  lemma DeleteMovesPast(db: Db, v: Id, file: Option<Id>, now: Moment)
    ensures DeleteDraft(db, v, file, now).Committed? ==> MovedPast(db, DeleteDraft(db, v, file, now).db, v, Draft)
  {
    hide HasDecision;
  }

  lemma TransactMovesPast(db: Db, r: Pending, now: Moment, v: Id, from: VersionState)
    requires r.Request? && Expects(r, v, from) && Checked(r) && Transact(db, r, now).Committed?
    ensures MovedPast(db, Transact(db, r, now).db, v, from)
  {
    hide MoveVersion, Decide, DeleteDraft, MovedPast;
    match r.intent
    case Share(_) => MoveMovesPast(db, v, from, Shared, 0);
    case Withdraw(_) => MoveMovesPast(db, v, from, Withdrawn, 0);
    case Answer(_, to, id) => MoveMovesPast(db, v, from, to, id);
    case DropVersion(_) => DeleteMovesPast(db, v, r.seen.file, now);
  }

  /** A request that found its version in the expected state moves it past that state. */
  lemma CommitMovesPast(w: World, t: nat, v: Id, from: VersionState)
    requires Reachable(w) && t in w.pending && w.pending[t].Request? && Expects(w.pending[t], v, from)
    requires Transact(w.db, w.pending[t], w.clock).Committed?
    ensures Past(Do(w, Commit(t)), v, from)
  {
    hide Sound, Distinct, Do, Settled, Transact, Expects;
    assert Checked(w.pending[t]);
    TransactMovesPast(w.db, w.pending[t], w.clock, v, from);
    InUse(w, v);
    SettledStep(w, Commit(t), v);
    Closing.CommitDb(w, t);
  }

  /** And one that does not find it there is refused. */
  lemma RefusedWhenPast(db: Db, r: Pending, now: Moment, v: Id, from: VersionState)
    requires r.Request? && Expects(r, v, from)
    requires v in db.versions ==> from.Rank() < db.versions[v].state.Rank()
    ensures Transact(db, r, now).RolledBack?
  {
    hide HasDecision, MarkDeleted;
  }

  /**
   * Of all the requests that change a version from one state, sharing, withdrawing, answering or deleting it,
   * one commits: from every reachable state, after that commit and any further steps, each other one that is
   * pending, or that starts later, is refused.
   */
  lemma SecondClickLoses(w: World, a: nat, b: nat, v: Id, from: VersionState, steps: seq<Step>)
    requires Reachable(w) && a in w.pending && w.pending[a].Request? && Expects(w.pending[a], v, from)
    requires Transact(w.db, w.pending[a], w.clock).Committed?
    ensures
      var u := Run(Do(w, Commit(a)), steps);
      b in u.pending && u.pending[b].Request? && Expects(u.pending[b], v, from) ==> Transact(u.db, u.pending[b], u.clock).RolledBack?
  {
    hide Reachable, Do, Run, Transact, Expects, Settled;
    CommitMovesPast(w, a, v, from);
    ReachableDo(w, Commit(a));
    PastForever(Do(w, Commit(a)), steps, v, from);
    var u := Run(Do(w, Commit(a)), steps);
    if b in u.pending && u.pending[b].Request? && Expects(u.pending[b], v, from) {
      RefusedWhenPast(u.db, u.pending[b], u.clock, v, from);
    }
  }

  // ---- invoices ----

  ghost predicate Reached(w: World, i: Id, to: InvoiceStatus) {
    Settled(w, i) && (i in w.db.invoices ==> to.Rank() <= w.db.invoices[i].status.Rank())
  }

  lemma {:induction false} ReachedForever(w: World, steps: seq<Step>, i: Id, to: InvoiceStatus)
    requires Reachable(w) && Reached(w, i, to)
    ensures Reached(Run(w, steps), i, to)
    decreases |steps|
  {
    hide Reachable, Do, Settled;
    if steps != [] {
      SettledStep(w, steps[0], i);
      ForwardStep(w, steps[0], i);
      ReachableDo(w, steps[0]);
      ReachedForever(Do(w, steps[0]), steps[1..], i, to);
    }
  }

  /**
   * An invoice is sent, paid or canceled once: from every reachable state, after such a change committed and
   * any further steps, the same change of the same invoice is refused.
   */
  lemma InvoiceMovesOnce(w: World, a: nat, b: nat, i: Id, to: InvoiceStatus, steps: seq<Step>)
    requires Reachable(w) && a in w.pending && w.pending[a].Request? && w.pending[a].intent == MoveInvoice(i, to)
    requires Transact(w.db, w.pending[a], w.clock).Committed?
    ensures
      var u := Run(Do(w, Commit(a)), steps);
      b in u.pending && u.pending[b].Request? && u.pending[b].intent == MoveInvoice(i, to) ==> Transact(u.db, u.pending[b], u.clock).RolledBack?
  {
    hide Sound, Distinct, Do, Run, Settled;
    InUse(w, i);
    SettledStep(w, Commit(a), i);
    Closing.CommitDb(w, a);
    ReachableDo(w, Commit(a));
    ReachedForever(Do(w, Commit(a)), steps, i, to);
  }
}
