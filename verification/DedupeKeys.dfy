/**
 * The dedupe keys that make a job unique: `every:KIND:UNIX` for recurring work
 * (internal/jobs/jobs.go), `mail:KIND:RECORD:USER` for notifications (internal/web/notify.go)
 * and `mail:invitation:ID` for invitations (internal/web/admin.go).
 */
module DedupeKeys {
  import opened Basics

  /** %d of a signed number. */
  function SignedDecimal(n: int): string {
    if n < 0 then "-" + Decimal(-n) else Decimal(n)
  }

  function EveryKey(kind: string, unix: int): (k: string)
    ensures k != ""
  {
    "every:" + (kind + ":" + SignedDecimal(unix))
  }

  function MailKey(kind: string, record: string, user: string): (k: string)
    ensures k != ""
  {
    "mail:" + (kind + ":" + (record + ":" + user))
  }

  function InvitationKey(id: string): (k: string)
    ensures k != ""
  {
    "mail:" + ("invitation" + ":" + id)
  }

  /** Kinds and random ids hold no colon; a record may (an intake is PROJECT:VERSION). */
  predicate Plain(s: string) { ':' !in s }

  lemma SamePrefix(p: string, x: string, y: string)
    requires p + x == p + y
    ensures x == y
  {
    assert x == (p + x)[|p|..] && y == (p + y)[|p|..];
  }

  function FirstColon(s: string): nat {
    if s == "" || s[0] == ':' then 0 else 1 + FirstColon(s[1..])
  }

  function LastColon(s: string): nat {
    if s == "" || s[|s| - 1] == ':' then |s| else LastColon(s[..|s| - 1])
  }

  lemma {:induction false} FirstColonAfter(a: string, x: string)
    requires Plain(a)
    ensures FirstColon(a + ":" + x) == |a|
  {
    var s := a + ":" + x;
    if a != "" {
      assert s[0] == a[0] && s[1..] == a[1..] + ":" + x;
      FirstColonAfter(a[1..], x);
    }
  }

  lemma {:induction false} LastColonBefore(x: string, a: string)
    requires Plain(a)
    ensures LastColon(x + ":" + a) == |x| + 1
  {
    var s := x + ":" + a;
    if a != "" {
      var init := a[..|a| - 1];
      assert s[|s| - 1] == a[|a| - 1] && s[..|s| - 1] == x + ":" + init;
      LastColonBefore(x, init);
    }
  }

  lemma SplitAtFirst(a: string, x: string, b: string, y: string)
    requires Plain(a) && Plain(b) && a + ":" + x == b + ":" + y
    ensures a == b && x == y
  {
    FirstColonAfter(a, x);
    FirstColonAfter(b, y);
    var s, t := a + ":" + x, b + ":" + y;
    assert a == s[..|a|] && b == t[..|b|];
    assert x == s[|a| + 1..] && y == t[|b| + 1..];
  }

  lemma SplitAtLast(x: string, a: string, y: string, b: string)
    requires Plain(a) && Plain(b) && x + ":" + a == y + ":" + b
    ensures x == y && a == b
  {
    LastColonBefore(x, a);
    LastColonBefore(y, b);
    var s, t := x + ":" + a, y + ":" + b;
    assert x == s[..|x|] && y == t[..|y|];
    assert a == s[|x| + 1..] && b == t[|y| + 1..];
  }

  lemma SignOf(n: int)
    ensures SignedDecimal(n)[0] == '-' <==> n < 0
  {
  }

  lemma SignedDecimalInjective(n: int, m: int)
    ensures SignedDecimal(n) == SignedDecimal(m) ==> n == m
  {
    var a, b := if n < 0 then -n else n, if m < 0 then -m else m;
    ValueOfDecimal(a);
    ValueOfDecimal(b);
    SignOf(n);
    SignOf(m);
    if SignedDecimal(n) == SignedDecimal(m) && n < 0 {
      SamePrefix("-", Decimal(a), Decimal(b));
    }
  }

  /** A schedule key names one kind and one bucket. */
  lemma EveryKeyInjective(kind: string, unix: int, kind': string, unix': int)
    requires Plain(kind) && Plain(kind')
    ensures EveryKey(kind, unix) == EveryKey(kind', unix') ==> kind == kind' && unix == unix'
  {
    if EveryKey(kind, unix) == EveryKey(kind', unix') {
      SamePrefix("every:", kind + ":" + SignedDecimal(unix), kind' + ":" + SignedDecimal(unix'));
      SplitAtFirst(kind, SignedDecimal(unix), kind', SignedDecimal(unix'));
      SignedDecimalInjective(unix, unix');
    }
  }

  /** A notification key names one kind, one record and one user, even when the record holds colons. */
  lemma MailKeyInjective(kind: string, record: string, user: string, kind': string, record': string, user': string)
    requires Plain(kind) && Plain(kind') && Plain(user) && Plain(user')
    ensures MailKey(kind, record, user) == MailKey(kind', record', user') ==>
      kind == kind' && record == record' && user == user'
  {
    if MailKey(kind, record, user) == MailKey(kind', record', user') {
      SamePrefix("mail:", kind + ":" + (record + ":" + user), kind' + ":" + (record' + ":" + user'));
      SplitAtFirst(kind, record + ":" + user, kind', record' + ":" + user');
      SplitAtLast(record, user, record', user');
    }
  }

  /** The three families never meet: no job of one can suppress a job of another. */
  lemma KeyFamiliesDisjoint(kind: string, unix: int, mail: string, record: string, user: string, id: string)
    requires Plain(mail) && Plain(id)
    ensures EveryKey(kind, unix) != MailKey(mail, record, user)
    ensures EveryKey(kind, unix) != InvitationKey(id)
    ensures MailKey(mail, record, user) != InvitationKey(id)
  {
    assert EveryKey(kind, unix)[0] == 'e';
    assert MailKey(mail, record, user)[0] == 'm' && InvitationKey(id)[0] == 'm';
    var s := record + ":" + user;
    assert s[|record|] == ':' && ':' in s;
    if MailKey(mail, record, user) == InvitationKey(id) {
      SamePrefix("mail:", mail + ":" + s, "invitation" + ":" + id);
      SplitAtFirst(mail, s, "invitation", id);
    }
  }

  /** The three formats, written out. */
  lemma KeyTexts(kind: string, record: string, user: string, n: nat)
    ensures EveryKey(kind, n) == "every:" + kind + ":" + Decimal(n)
    ensures MailKey(kind, record, user) == "mail:" + kind + ":" + record + ":" + user
    ensures InvitationKey(record) == "mail:invitation:" + record
  {
    hide Decimal;
    assert "mail:" + ("invitation" + ":" + record) == "mail:invitation:" + record;
  }
}
