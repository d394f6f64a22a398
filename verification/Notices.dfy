/**
 * Mail about an event is queued at most once per record and recipient over any run
 * (internal/web/notify.go), not because of the dedupe keys, which Cleanup frees after 30 days, but
 * because no record ever re-enters the state it left.
 */
module Notices {
  import opened Basics
  import opened Timestamps
  import opened JobTable
  import opened Domain
  import opened DedupeKeys
  import opened Schema
  import opened Requests
  import opened Identity
  import opened Approval
  import opened Progress

  // ---- notices ----

  /** The event of a notice cannot happen to its record again. */
  ghost predicate Spent(db: Db, n: Notice) {
    && (n.kind == "version.shared" && n.record in db.versions ==> db.versions[n.record].state.Rank() >= 1)
    && (n.kind == "version.withdrawn" && n.record in db.versions ==> db.versions[n.record].state.Withdrawn?)
    && (n.kind == "invoice.sent" && n.record in db.invoices ==> db.invoices[n.record].status.Rank() >= 1)
  }

  lemma SpentStays(db: Db, db': Db, drawn: set<Id>, n: Notice)
    requires Spent(db, n) && Forward(db, db', drawn) && n.record !in drawn
    ensures Spent(db', n)
  {
  }

  ghost predicate NoticeOk(w: World, n: Notice) {
    && Spent(w.db, n) && n.record in w.usedIds && Plain(n.kind)
    && forall t | t in w.pending && w.pending[t].Request? :: n.record !in NewIds(w.pending[t].intent)
  }

  ghost predicate Once(w: World) {
    && (forall i | 0 <= i < |w.notices| :: NoticeOk(w, w.notices[i]))
    && (forall i, j | 0 <= i < j < |w.notices| :: w.notices[i] != w.notices[j])
  }

  lemma NoticeOkCommit(w: World, t: nat, n: Notice)
    requires Reachable(w) && t in w.pending && w.pending[t].Request? && NoticeOk(w, n)
    ensures NoticeOk(DoCommit(w, t), n)
  {
    hide Reachable, Transact, NewIds, NoticeOf, Spent, Forward;
    TransactForward(w, t);
    SpentStays(w.db, DoCommit(w, t).db, NewIds(w.pending[t].intent), n);
  }

  /** A commit spends its own notice, which is about a new row or was not spent before. */
  ghost predicate Spends(db: Db, db': Db, r: Pending, n: Notice)
    requires r.Request?
  {
    Spent(db', n) && (n.record in NewIds(r.intent) || (!Spent(db, n) && (n.record in db.versions || n.record in db.invoices)))
  }

  lemma MoveSpends(db: Db, v: Id, from: VersionState, to: VersionState)
    requires to.Shared? || to.Withdrawn?
    requires from.Draft? || (from.Shared? && to.Withdrawn?)
    ensures
      var n := Notice(if to.Shared? then "version.shared" else "version.withdrawn", v);
      var x := MoveVersion(db, v, from, to);
      x.Committed? ==> Spent(x.db, n) && !Spent(db, n) && v in db.versions
  {
  }

  lemma InvoiceSpends(db: Db, i: Id)
    ensures
      var x := SetInvoiceStatus(db, i, InvoiceSent);
      x.Committed? ==> Spent(x.db, Notice("invoice.sent", i)) && !Spent(db, Notice("invoice.sent", i)) && i in db.invoices
  {
  }

  lemma TransactSpends(db: Db, r: Pending, now: Moment)
    requires r.Request? && Checked(r) && Transact(db, r, now).Committed? && NoticeOf(r.intent) != []
    ensures Spends(db, Transact(db, r, now).db, r, NoticeOf(r.intent)[0])
  {
    hide CreateVersion, DeleteProject, DeleteDeliverable, DeleteDraft, CreateInvoice, EditInvoice, SaveLogo,
         MoveVersion, Decide, SetInvoiceStatus;
    match r.intent
    case Share(v) => if r.seen.SeenVersion? { MoveSpends(db, v, r.seen.state, Shared); }
    case Withdraw(v) => if r.seen.SeenVersion? { MoveSpends(db, v, r.seen.state, Withdrawn); }
    case MoveInvoice(i, to) => InvoiceSpends(db, i);
    case _ =>
  }

  /** The notice of a commit is new, and spent by that very commit. */
  lemma FreshNotice(w: World, t: nat)
    requires Reachable(w) && Once(w) && t in w.pending && w.pending[t].Request?
    requires Transact(w.db, w.pending[t], w.clock).Committed? && NoticeOf(w.pending[t].intent) != []
    ensures
      var n := NoticeOf(w.pending[t].intent)[0];
      NoticeOk(DoCommit(w, t), n) && n !in w.notices
  {
    hide Sound, Transact, Spent, NewIds, NoticeOf, Checked;
    var r := w.pending[t];
    var n := NoticeOf(r.intent)[0];
    KindsPlain(r.intent);
    assert Checked(r) && Fresh(w, t);
    TransactSpends(w.db, r, w.clock);
    forall u | u in w.pending && w.pending[u].Request? && u != t
      ensures n.record !in NewIds(w.pending[u].intent)
    {
      assert Fresh(w, u);
    }
  }

  lemma KindsPlain(intent: Intent)
    ensures NoticeOf(intent) != [] ==> Plain(NoticeOf(intent)[0].kind)
  {
  }

  lemma AtMostOneEach(intent: Intent)
    ensures |NoticeOf(intent)| <= 1
  {
  }

  lemma OnceCommit(w: World, t: nat)
    requires Reachable(w) && Once(w) && t in w.pending && w.pending[t].Request?
    ensures Once(DoCommit(w, t))
  {
    hide Reachable, Transact, NewIds, NoticeOf, NoticeOk;
    var r, v := w.pending[t], DoCommit(w, t);
    forall i | 0 <= i < |w.notices|
      ensures NoticeOk(v, w.notices[i])
    {
      NoticeOkCommit(w, t, w.notices[i]);
    }
    if Transact(w.db, r, w.clock).Committed? && NoticeOf(r.intent) != [] {
      AtMostOneEach(r.intent);
      FreshNotice(w, t);
    }
  }

  lemma OnceDo(w: World, s: Step)
    requires Reachable(w) && Once(w)
    ensures Once(Do(w, s))
  {
    hide Reachable, DoCommit, Due, See, NewIds, Held, Spent;
    if s.Commit? && s.ticket in w.pending && w.pending[s.ticket].Request? {
      OnceCommit(w, s.ticket);
    } else {
      var v := Do(w, s);
      OtherNotices(w, s);
      forall i | 0 <= i < |v.notices|
        ensures NoticeOk(v, v.notices[i])
      {
        var n := w.notices[i];
        assert NoticeOk(w, n);
        assert Spent(v.db, n) by { SpentSame(w.db, v.db, n); }
      }
    }
  }

  lemma SpentSame(db: Db, db': Db, n: Notice)
    requires Spent(db, n) && db'.versions == db.versions && db'.invoices == db.invoices
    ensures Spent(db', n)
  {
  }

  /** Every other step leaves notices and records alone, and new requests draw new ids. */
  lemma OtherNotices(w: World, s: Step)
    requires !(s.Commit? && s.ticket in w.pending && w.pending[s.ticket].Request?)
    ensures
      var v := Do(w, s);
      && v.notices == w.notices && w.usedIds <= v.usedIds
      && v.db.versions == w.db.versions && v.db.invoices == w.db.invoices
      && forall t | t in v.pending && v.pending[t].Request? ::
           (t in w.pending && v.pending[t] == w.pending[t]) || NewIds(v.pending[t].intent) !! w.usedIds
  {
    hide See, Due, Held, NewIds;
  }

  lemma {:induction false} OnceRun(w: World, steps: seq<Step>)
    requires Reachable(w) && Once(w)
    ensures Once(Run(w, steps))
    decreases |steps|
  {
    hide Reachable, Do, Once;
    if steps != [] {
      ReachableDo(w, steps[0]);
      OnceDo(w, steps[0]);
      OnceRun(Do(w, steps[0]), steps[1..]);
    }
  }

  /** Over any run no event is announced twice: its record never re-enters the state it left. */
  lemma NoticesNeverRepeat(clock: Moment, steps: seq<Step>, i: nat, j: nat)
    ensures
      var ns := Run(Start(clock), steps).notices;
      (i < j < |ns| ==> ns[i] != ns[j]) && (i < |ns| ==> Plain(ns[i].kind))
  {
    hide Run, Reachable;
    StartReachable(clock);
    OnceRun(Start(clock), steps);
  }
}
