/**
 * notify (internal/web/notify.go): one in-app notification and at most one mail job per recipient.
 * Together with Notices it gives the promise of its comment: each (event, record, user) mail is
 * queued at most once, ever, although finished jobs are deleted and their keys come free.
 */
module Mailbox {
  import opened Basics
  import opened Timestamps
  import opened JobTable
  import opened DedupeKeys
  import opened Schema
  import Requests
  import Notices

  type Notice = Requests.Notice

  /** Record ids are written out in the key; the model's ids are numbers. */
  function KeyFor(n: Notice, user: string): string { MailKey(n.kind, Decimal(n.record), user) }

  lemma KeyForInjective(n: Notice, u: string, m: Notice, v: string)
    requires Plain(n.kind) && Plain(m.kind) && Plain(u) && Plain(v)
    ensures KeyFor(n, u) == KeyFor(m, v) ==> n == m && u == v
  {
    MailKeyInjective(n.kind, Decimal(n.record), u, m.kind, Decimal(m.record), v);
    ValueOfDecimal(n.record);
    ValueOfDecimal(m.record);
  }

  // ---- the specification ----

  /** The users who are told: everyone but the actor. */
  function Told(recipients: seq<string>, actor: Option<string>): seq<string> {
    if recipients == [] then []
    else
      var init, last := recipients[..|recipients| - 1], recipients[|recipients| - 1];
      Told(init, actor) + if actor == Some(last) then [] else [last]
  }

  /** The dedupe keys offered to the queue, in order. */
  function Offered(told: seq<string>, users: map<string, bool>, n: Notice): (keys: seq<string>)
    ensures forall k | k in keys :: exists u :: u in told && k == KeyFor(n, u)
  {
    if told == [] then []
    else
      var last := told[|told| - 1];
      Offered(told[..|told| - 1], users, n) + if last in users && users[last] then [KeyFor(n, last)] else []
  }

  /** The queue after the keys were offered, and the keys it took. */
  function Queued(t: Table, keys: seq<string>, now: Moment): Table {
    if keys == [] then t
    else Insert(Queued(t, keys[..|keys| - 1], now), "mail.send", keys[|keys| - 1], now, DEFAULT_ATTEMPTS)
  }

  ghost function Taken(t: Table, keys: seq<string>, now: Moment): seq<string> {
    if keys == [] then []
    else
      var init, last := keys[..|keys| - 1], keys[|keys| - 1];
      Taken(t, init, now) + if KeyTaken(Queued(t, init, now).rows, last) then [] else [last]
  }

  /** The transaction that notify runs in; a missing user is an error, and the caller rolls back. */
  class Outbox {
    var users: map<string, bool>
    var inbox: seq<(string, Notice)>
    var jobs: Table

    constructor (users: map<string, bool>, jobs: Table)
      ensures this.users == users && inbox == [] && this.jobs == jobs
    {
      this.users, inbox, this.jobs := users, [], jobs;
    }

    method Notify(actor: Option<string>, recipients: seq<string>, n: Notice, now: Moment) returns (ok: bool)
      modifies `inbox, `jobs
      ensures ok <==> forall u | u in Told(recipients, actor) :: u in users
      ensures ok ==>
        && inbox == old(inbox) + Announced(Told(recipients, actor), n)
        && jobs == Queued(old(jobs), Offered(Told(recipients, actor), users, n), now)
    {
      hide Insert, KeyFor, Announced, Told, Offered, Queued;
      var i := 0;
      Nothing(recipients, actor, users, n, jobs, now);
      while i < |recipients|
        invariant 0 <= i <= |recipients|
        invariant forall u | u in Told(recipients[..i], actor) :: u in users
        invariant inbox == old(inbox) + Announced(Told(recipients[..i], actor), n)
        invariant jobs == Queued(old(jobs), Offered(Told(recipients[..i], actor), users, n), now)
      {
        var user := recipients[i];
        ghost var told := Told(recipients[..i], actor);
        NextTold(recipients, actor, i, users, n);
        i := i + 1;
        if actor == Some(user) {
          continue;
        }
        AnnouncedOne(told, user, n);
        inbox := inbox + [(user, n)];
        if user !in users {
          ToldGrows(recipients, actor, i);
          return false;
        }
        ghost var keys := Offered(told, users, n);
        if !users[user] {
          assert keys + [] == keys;
          continue;
        }
        NextQueued(old(jobs), keys, KeyFor(n, user), now);
        jobs := Insert(jobs, "mail.send", KeyFor(n, user), now, DEFAULT_ATTEMPTS);
      }
      assert recipients[..i] == recipients;
      return true;
    }
  }

  function Announced(told: seq<string>, n: Notice): seq<(string, Notice)> { seq(|told|, i requires 0 <= i < |told| => (told[i], n)) }

  lemma Nothing(recipients: seq<string>, actor: Option<string>, users: map<string, bool>, n: Notice, t: Table, now: Moment)
    ensures recipients[..0] == [] && Told([], actor) == [] && Announced([], n) == []
    ensures Offered([], users, n) == [] && Queued(t, [], now) == t
  {
  }

  /** What one more recipient adds. */
  lemma NextTold(recipients: seq<string>, actor: Option<string>, i: nat, users: map<string, bool>, n: Notice)
    requires i < |recipients|
    ensures
      var told, user := Told(recipients[..i], actor), recipients[i];
      && Told(recipients[..i + 1], actor) == (if actor == Some(user) then told else told + [user])
      && Offered(told + [user], users, n) == Offered(told, users, n) + if user in users && users[user] then [KeyFor(n, user)] else []
  {
    hide KeyFor;
    var told := Told(recipients[..i], actor);
    assert recipients[..i + 1][..i] == recipients[..i];
    assert (told + [recipients[i]])[..|told|] == told;
  }

  lemma NextQueued(t: Table, keys: seq<string>, key: string, now: Moment)
    ensures Queued(t, keys + [key], now) == Insert(Queued(t, keys, now), "mail.send", key, now, DEFAULT_ATTEMPTS)
  {
    assert (keys + [key])[..|keys|] == keys;
  }

  lemma AnnouncedOne(told: seq<string>, user: string, n: Notice)
    ensures Announced(told + [user], n) == Announced(told, n) + [(user, n)]
  {
  }

  lemma {:induction false} ToldGrows(recipients: seq<string>, actor: Option<string>, i: nat)
    requires i <= |recipients|
    ensures forall u | u in Told(recipients[..i], actor) :: u in Told(recipients, actor)
    decreases |recipients| - i
  {
    if i == |recipients| {
      assert recipients[..i] == recipients;
    } else {
      assert recipients[..i + 1][..i] == recipients[..i];
      ToldGrows(recipients, actor, i + 1);
    }
  }

  // ---- what the queue takes ----

  lemma InsertTakes(t: Table, key: string, now: Moment, k: string)
    requires key != ""
    ensures KeyTaken(Insert(t, "mail.send", key, now, DEFAULT_ATTEMPTS).rows, key)
    ensures IdsFresh(t) && KeyTaken(t.rows, k) ==> KeyTaken(Insert(t, "mail.send", key, now, DEFAULT_ATTEMPTS).rows, k)
    ensures IdsFresh(t) ==> IdsFresh(Insert(t, "mail.send", key, now, DEFAULT_ATTEMPTS))
  {
    var u := Insert(t, "mail.send", key, now, DEFAULT_ATTEMPTS);
    if u != t {
      assert u.rows[t.nextId].key == Some(key);
    }
    if IdsFresh(t) && KeyTaken(t.rows, k) {
      var i :| i in t.rows && t.rows[i].key == Some(k);
      assert i in u.rows && u.rows[i].key == Some(k);
    }
  }

  /** Afterwards every offered key has its job, and no key was taken twice. */
  lemma {:induction false} EachTakenOnce(t: Table, keys: seq<string>, now: Moment)
    requires IdsFresh(t) && "" !in keys
    ensures IdsFresh(Queued(t, keys, now))
    ensures forall k | k in keys :: KeyTaken(Queued(t, keys, now).rows, k)
    ensures forall k | k in Taken(t, keys, now) :: k in keys
    ensures NoRepeat(Taken(t, keys, now))
  {
    hide KeyTaken, Insert;
    if keys != [] {
      var init, last := keys[..|keys| - 1], keys[|keys| - 1];
      assert keys == init + [last];
      EachTakenOnce(t, init, now);
      forall k | k in keys
        ensures KeyTaken(Queued(t, keys, now).rows, k)
      {
        InsertTakes(Queued(t, init, now), last, now, k);
      }
      InsertTakes(Queued(t, init, now), last, now, last);
    }
  }

  ghost predicate NoRepeat(ks: seq<string>) { forall i, j | 0 <= i < j < |ks| :: ks[i] != ks[j] }

  lemma NoRepeatJoin(a: seq<string>, b: seq<string>)
    requires NoRepeat(a) && NoRepeat(b) && forall k | k in b :: k !in a
    ensures NoRepeat(a + b)
  {
    forall i, j | 0 <= i < j < |a + b|
      ensures (a + b)[i] != (a + b)[j]
    {
      if i < |a| <= j {
        assert (a + b)[j] in b && (a + b)[i] in a;
      }
    }
  }

  // ---- over any run ----

  /** Calls of notify, and anything else that happens to the jobs table in between. */
  datatype Event =
    | Notified(notice: Notice, actor: Option<string>, recipients: seq<string>, users: map<string, bool>, now: Moment)
    | Changed(jobs: Table)

  function NoticesIn(events: seq<Event>): seq<Notice> {
    if events == [] then []
    else
      var e := events[|events| - 1];
      NoticesIn(events[..|events| - 1]) + if e.Notified? then [e.notice] else []
  }

  function OfferedBy(e: Event): seq<string>
    requires e.Notified?
  {
    Offered(Told(e.recipients, e.actor), e.users, e.notice)
  }

  ghost function JobsAfter(events: seq<Event>): Table {
    if events == [] then JobTable.EMPTY
    else
      var e := events[|events| - 1];
      match e
      case Changed(jobs) => jobs
      case Notified(_, _, _, _, now) => Queued(JobsAfter(events[..|events| - 1]), OfferedBy(e), now)
  }

  /** The keys of all mail jobs ever created. */
  ghost function Created(events: seq<Event>): seq<string> {
    if events == [] then []
    else
      var init, e := events[..|events| - 1], events[|events| - 1];
      Created(init) + match e { case Changed(_) => [] case Notified(_, _, _, _, now) => Taken(JobsAfter(init), OfferedBy(e), now) }
  }

  ghost predicate Wellformed(events: seq<Event>) {
    && (forall e | e in events && e.Changed? :: IdsFresh(e.jobs))
    && (forall e | e in events && e.Notified? :: Plain(e.notice.kind) && forall u | u in e.recipients :: Plain(u))
  }

  lemma {:induction false} ToldAmong(recipients: seq<string>, actor: Option<string>)
    ensures forall u | u in Told(recipients, actor) :: u in recipients
  {
    if recipients != [] {
      ToldAmong(recipients[..|recipients| - 1], actor);
    }
  }

  /** Every key ever created is that of a notice in the run and one of its plain recipients. */
  ghost predicate Explained(k: string, ns: seq<Notice>) {
    exists n, u :: n in ns && Plain(n.kind) && Plain(u) && k == KeyFor(n, u)
  }

  lemma KeysExplained(e: Event)
    requires e.Notified? && Wellformed([e])
    ensures "" !in OfferedBy(e)
    ensures forall k | k in OfferedBy(e) :: Explained(k, [e.notice])
  {
    assert e in [e];
    ToldAmong(e.recipients, e.actor);
    forall k | k in OfferedBy(e)
      ensures Explained(k, [e.notice]) && k != ""
    {
      var u :| u in Told(e.recipients, e.actor) && k == KeyFor(e.notice, u);
      assert e.notice in [e.notice];
    }
  }

  lemma ExplainedMore(k: string, ns: seq<Notice>, ms: seq<Notice>)
    requires Explained(k, ns) && forall n | n in ns :: n in ms
    ensures Explained(k, ms)
  {
    var n, u :| n in ns && Plain(n.kind) && Plain(u) && k == KeyFor(n, u);
    assert n in ms;
  }

  lemma ExplainedApart(k: string, ns: seq<Notice>, n: Notice)
    requires Explained(k, ns) && n !in ns && Plain(n.kind)
    ensures !Explained(k, [n])
  {
    var m, u :| m in ns && Plain(m.kind) && Plain(u) && k == KeyFor(m, u);
    forall v | Plain(v)
      ensures k != KeyFor(n, v)
    {
      KeyForInjective(m, u, n, v);
    }
  }

  lemma {:induction false} CreatedOnce(events: seq<Event>)
    requires Wellformed(events) && forall i, j | 0 <= i < j < |NoticesIn(events)| :: NoticesIn(events)[i] != NoticesIn(events)[j]
    ensures IdsFresh(JobsAfter(events))
    ensures NoRepeat(Created(events))
    ensures forall k | k in Created(events) :: Explained(k, NoticesIn(events))
    decreases |events|
  {
    hide KeyTaken, Insert, Queued, Taken, OfferedBy, Explained;
    if events != [] {
      var init, e := events[..|events| - 1], events[|events| - 1];
      assert events == init + [e] && e in events;
      var ns := NoticesIn(init);
      assert forall i | 0 <= i < |ns| :: NoticesIn(events)[i] == ns[i];
      CreatedOnce(init);
      forall k | k in Created(init)
        ensures Explained(k, NoticesIn(events))
      {
        ExplainedMore(k, ns, NoticesIn(events));
      }
      assert Created(init) + [] == Created(init);
      if e.Notified? {
        KeysExplained(e);
        EachTakenOnce(JobsAfter(init), OfferedBy(e), e.now);
        var more := Taken(JobsAfter(init), OfferedBy(e), e.now);
        assert NoticesIn(events) == ns + [e.notice];
        assert e.notice !in ns by { NotBefore(NoticesIn(events), ns, e.notice); }
        forall k | k in more
          ensures Explained(k, NoticesIn(events)) && k !in Created(init)
        {
          ExplainedMore(k, [e.notice], NoticesIn(events));
          if k in Created(init) {
            ExplainedApart(k, ns, e.notice);
          }
        }
        NoRepeatJoin(Created(init), more);
      }
    }
  }

  lemma NotBefore(all: seq<Notice>, ns: seq<Notice>, n: Notice)
    requires all == ns + [n] && forall i, j | 0 <= i < j < |all| :: all[i] != all[j]
    ensures n !in ns
  {
    assert forall i | 0 <= i < |ns| :: ns[i] == all[i] && all[i] != all[|ns|];
  }

  /**
   * At most one mail job per event, record and recipient is created over any run of requests, for any
   * recipients, whatever else happens to the jobs table between the calls of notify: jobs run, finish
   * and are deleted by Cleanup, which frees their keys.
   */
  lemma AtMostOneMail(clock: Moment, steps: seq<Requests.Step>, events: seq<Event>, i: nat, j: nat)
    requires forall e | e in events && e.Changed? :: IdsFresh(e.jobs)
    requires forall e | e in events && e.Notified? :: forall u | u in e.recipients :: Plain(u)
    ensures
      NoticesIn(events) == Requests.Run(Requests.Start(clock), steps).notices && i < j < |Created(events)| ==>
        Created(events)[i] != Created(events)[j]
  {
    hide Requests.Run, Created, KeyFor;
    var ns := Requests.Run(Requests.Start(clock), steps).notices;
    if NoticesIn(events) == ns {
      forall k, l: nat | 0 <= k < l < |ns|
        ensures ns[k] != ns[l]
      {
        Notices.NoticesNeverRepeat(clock, steps, k, l);
      }
      forall k: nat | k < |ns|
        ensures Plain(ns[k].kind)
      {
        Notices.NoticesNeverRepeat(clock, steps, k, k);
      }
      forall e | e in events && e.Notified?
        ensures Plain(e.notice.kind)
      {
        NoticeAmong(events, e);
      }
      CreatedOnce(events);
    }
  }

  lemma {:induction false} NoticeAmong(events: seq<Event>, e: Event)
    requires e in events && e.Notified?
    ensures e.notice in NoticesIn(events)
    decreases |events|
  {
    var init := events[..|events| - 1];
    assert events == init + [events[|events| - 1]];
    if e in init {
      NoticeAmong(init, e);
    }
  }

  // ---- the brief's keys ----

  /**
   * Saves of one project's brief, each a submission or a draft save (portal.go, portalIntakeSave). A
   * save updates the draft if there is one and adds the next version otherwise; a draft is left
   * exactly after a save that did not submit.
   */
  function MaxVersion(saves: seq<bool>): nat {
    if saves == [] then 0
    else MaxVersion(saves[..|saves| - 1]) + if HasDraft(saves[..|saves| - 1]) then 0 else 1
  }

  predicate HasDraft(saves: seq<bool>) { saves != [] && !saves[|saves| - 1] }

  /** The record part of the mail key of save i, maxVersion+1 read before it. */
  function IntakeRecord(saves: seq<bool>, i: nat): nat
    requires i < |saves|
  {
    MaxVersion(saves[..i]) + 1
  }

  lemma {:induction false} MaxGrows(saves: seq<bool>, i: nat, j: nat)
    requires i <= j <= |saves|
    ensures MaxVersion(saves[..i]) <= MaxVersion(saves[..j])
    ensures i < j && !HasDraft(saves[..i]) ==> MaxVersion(saves[..i]) < MaxVersion(saves[..j])
    decreases j
  {
    if i < j {
      assert saves[..j][..j - 1] == saves[..j - 1];
      MaxGrows(saves, i, j - 1);
    }
  }

  /**
   * Two submissions share their mail key exactly when the first submitted an existing draft and the
   * second followed it directly; while the first one's job is in the table the second is not mailed.
   */
  lemma IntakeKeysRepeat(saves: seq<bool>, i: nat, j: nat)
    requires i < j < |saves| && saves[i] && saves[j]
    ensures IntakeRecord(saves, i) == IntakeRecord(saves, j) <==> j == i + 1 && HasDraft(saves[..i])
  {
    assert saves[..i + 1][..i] == saves[..i];
    MaxGrows(saves, i, i + 1);
    MaxGrows(saves, i + 1, j);
  }
}
