/**
 * Timestamps as the database stores them (internal/db/db.go): RFC 3339 text in UTC whose
 * fraction has its trailing zeros dropped. Every deadline of the application is compared as
 * such text, by bytes, so this module settles how far byte order follows time order.
 */
module Timestamps {
  import opened Basics

  const SECOND: int := 1_000_000_000
  const DAY: int := 86_400 * SECOND

  // ---- the calendar ----

  predicate Leap(y: nat) { y % 4 == 0 && (y % 100 != 0 || y % 400 == 0) }

  function YearLength(y: nat): nat { if Leap(y) then 366 else 365 }

  /** Days from 0000-01-01 to the first day of year y. */
  function DaysBeforeYear(y: nat): nat {
    if y == 0 then 0 else DaysBeforeYear(y - 1) + YearLength(y - 1)
  }

  /** Days from 0000-01-01 to 10000-01-01, where the four-digit years end (see YearFits). */
  const DAYS: nat := 3_652_425

  /** Nanoseconds since 0000-01-01T00:00:00Z, up to the end of year 9999. */
  type Instant = t: int | 0 <= t < DAYS * DAY

  lemma QuotientIs(n: nat, k: nat, q: nat, r: nat)
    requires k > 0 && r < k && n == k * q + r
    ensures n / k == q && n % k == r
  {
    var d := n / k - q;
    assert k * d == k * (n / k) - k * q;
    NonzeroMultiple(k, d);
  }

  lemma NonzeroMultiple(k: nat, d: int)
    ensures d >= 1 ==> k * d >= k
    ensures d <= -1 ==> k * d + k <= 0
  {
  }

  /** Counting the multiples of k below y: y itself adds one exactly when it is a multiple. */
  lemma MultiplesBelow(y: nat, k: nat)
    requires k > 1
    ensures (y + k) / k == (y + k - 1) / k + if y % k == 0 then 1 else 0
  {
    var q, r := y / k, y % k;
    QuotientIs(y + k, k, q + 1, r);
    if r == 0 {
      QuotientIs(y + k - 1, k, q, k - 1);
    } else {
      QuotientIs(y + k - 1, k, q + 1, r - 1);
    }
  }

  lemma LeapByResidue(y: nat)
    ensures y % 400 == 0 ==> y % 100 == 0
    ensures y % 100 == 0 ==> y % 4 == 0
  {
    assert y % 400 == 0 ==> y == 100 * (4 * (y / 400));
    assert y % 100 == 0 ==> y == 4 * (25 * (y / 100));
  }

  /** The Gregorian rule in closed form. */
  lemma {:induction false} GregorianYears(y: nat)
    ensures DaysBeforeYear(y) == 365 * y + (y + 3) / 4 - (y + 99) / 100 + (y + 399) / 400
  {
    if y > 0 {
      var z := y - 1;
      GregorianYears(z);
      var a, b, c := if z % 4 == 0 then 1 else 0, if z % 100 == 0 then 1 else 0, if z % 400 == 0 then 1 else 0;
      assert YearLength(z) == 365 + a - b + c by { LeapByResidue(z); }
      assert (y + 3) / 4 == (z + 3) / 4 + a by { MultiplesBelow(z, 4); }
      assert (y + 99) / 100 == (z + 99) / 100 + b by { MultiplesBelow(z, 100); }
      assert (y + 399) / 400 == (z + 399) / 400 + c by { MultiplesBelow(z, 400); }
    }
  }

  /** Every instant lies in a year of four digits. */
  lemma YearFits(y: nat)
    requires DaysBeforeYear(y) < DAYS
    ensures y < 10000
  {
    hide DaysBeforeYear;
    GregorianYears(y);
  }

  const BEFORE_MONTH: seq<nat> := [0, 31, 59, 90, 120, 151, 181, 212, 243, 273, 304, 334, 365]

  /** Days of year y before month m; month 13 stands for the end of the year. */
  function DaysBeforeMonth(y: nat, m: nat): nat
    requires 1 <= m <= 13
  {
    BEFORE_MONTH[m - 1] + if m > 2 && Leap(y) then 1 else 0
  }

  datatype Civil = Civil(year: nat, month: nat, day: nat, hour: nat, minute: nat, second: nat) {
    predicate Valid() {
      && year < 10000 && 1 <= month <= 12
      && 1 <= day <= DaysBeforeMonth(year, month + 1) - DaysBeforeMonth(year, month)
      && hour < 24 && minute < 60 && second < 60
    }

    function DayNumber(): int
      requires Valid()
    {
      DaysBeforeYear(year) + DaysBeforeMonth(year, month) + day - 1
    }

    function TimeOfDay(): nat { 3600 * hour + 60 * minute + second }

    /** Seconds since 0000-01-01T00:00:00Z. */
    function Seconds(): int
      requires Valid()
    {
      86400 * DayNumber() + TimeOfDay()
    }

    predicate DateBefore(d: Civil) {
      year < d.year || (year == d.year && (month < d.month || (month == d.month && day < d.day)))
    }

    predicate SameDate(d: Civil) { year == d.year && month == d.month && day == d.day }

    predicate TimeBefore(d: Civil) {
      hour < d.hour || (hour == d.hour && (minute < d.minute || (minute == d.minute && second < d.second)))
    }
  }

  function YearOf(day: nat, from: nat): (y: nat)
    requires DaysBeforeYear(from) <= day < DAYS
    ensures y < 10000 && DaysBeforeYear(y) <= day < DaysBeforeYear(y) + YearLength(y)
    decreases day - DaysBeforeYear(from)
  {
    YearFits(from);
    if day < DaysBeforeYear(from) + YearLength(from) then from else YearOf(day, from + 1)
  }

  function MonthOf(y: nat, day: nat, from: nat): (m: nat)
    requires 1 <= from <= 12 && DaysBeforeMonth(y, from) <= day < YearLength(y)
    ensures 1 <= m <= 12 && DaysBeforeMonth(y, m) <= day < DaysBeforeMonth(y, m + 1)
    decreases 12 - from
  {
    if from == 12 || day < DaysBeforeMonth(y, from + 1) then from else MonthOf(y, day, from + 1)
  }

  lemma ClockParts(clock: nat)
    requires clock < 86400
    ensures clock / 3600 < 24 && clock / 60 % 60 < 60 && clock % 60 < 60
    ensures clock == 3600 * (clock / 3600) + 60 * (clock / 60 % 60) + clock % 60
  {
  }

  lemma DateParts(day: nat, y: nat, m: nat)
    requires y < 10000 && 1 <= m <= 12
    requires DaysBeforeMonth(y, m) <= day - DaysBeforeYear(y) < DaysBeforeMonth(y, m + 1)
    ensures
      var c := Civil(y, m, day - DaysBeforeYear(y) - DaysBeforeMonth(y, m) + 1, 0, 0, 0);
      c.Valid() && c.DayNumber() == day
  {
    hide DaysBeforeYear, DaysBeforeMonth;
  }

  /** The calendar date of a day, at midnight. */
  function DateOf(day: nat): (c: Civil)
    requires day < DAYS
    ensures c.Valid() && c.DayNumber() == day
  {
    var y := YearOf(day, 0);
    var ofYear := day - DaysBeforeYear(y);
    var m := MonthOf(y, ofYear, 1);
    DateParts(day, y, m);
    Civil(y, m, ofYear - DaysBeforeMonth(y, m) + 1, 0, 0, 0)
  }

  function AtTime(c: Civil, clock: nat): (d: Civil)
    requires c.Valid() && clock < 86400
    ensures d.Valid() && d.DayNumber() == c.DayNumber() && d.TimeOfDay() == clock
  {
    ClockParts(clock);
    c.(hour := clock / 3600, minute := clock / 60 % 60, second := clock % 60)
  }

  lemma DayAndClock(s: nat)
    requires s < DAYS * 86400
    ensures s / 86400 < DAYS && s == 86400 * (s / 86400) + s % 86400
  {
  }

  /** The whole second an instant lies in, and its nanoseconds within that second. */
  function SecondOf(t: Instant): (s: nat)
    ensures s < DAYS * 86400 && 0 <= t - s * SECOND < SECOND
  {
    t / SECOND
  }

  function NanosOf(t: Instant): (n: nat)
    ensures n < SECOND && t == SecondOf(t) * SECOND + n
  {
    t - SecondOf(t) * SECOND
  }

  /** The calendar date and clock time of a whole second. */
  function CivilOf(s: nat): (c: Civil)
    requires s < DAYS * 86400
    ensures c.Valid() && c.Seconds() == s
  {
    DayAndClock(s);
    AtTime(DateOf(s / 86400), s % 86400)
  }

  // ---- the stored text ----

  /** A fixed-width field after its separator, then the rest. */
  function Field(sep: string, n: nat, w: nat, rest: string): (s: string)
    ensures |s| == |sep| + w + |rest|
  {
    sep + Digits(n, w) + rest
  }

  /** The fixed-width part, YYYY-MM-DDThh:mm:ss. */
  function Clock(c: Civil): (s: string)
    ensures |s| == 19
  {
    Field("", c.year, 4, MonthText(c))
  }

  function MonthText(c: Civil): (s: string)
    ensures |s| == 15
  {
    Field("-", c.month, 2, Field("-", c.day, 2, TimeText(c)))
  }

  function TimeText(c: Civil): (s: string)
    ensures |s| == 9
  {
    Field("T", c.hour, 2, Field(":", c.minute, 2, Field(":", c.second, 2, "")))
  }

  function Trim(s: string): (t: string)
    ensures t <= s
    ensures t != "" ==> t[|t| - 1] != '0'
    ensures forall i :: |t| <= i < |s| ==> s[i] == '0'
  {
    if s == "" || s[|s| - 1] != '0' then s else Trim(s[..|s| - 1])
  }

  /** The digits after the point, trailing zeros dropped; empty on a whole second. */
  function Fraction(t: Instant): (f: string)
    ensures AllDigits(f) && |f| <= 9
  {
    Trim(Digits(NanosOf(t), 9))
  }

  function Suffix(f: string): string { (if f == "" then "" else "." + f) + "Z" }

  /** What a timestamp column holds for t. */
  function Time(t: Instant): string {
    Clock(CivilOf(SecondOf(t))) + Suffix(Fraction(t))
  }

  // ---- comparing as text ----

  /** The byte order that the database applies to text columns. */
  predicate Less(s: string, t: string) {
    t != "" && (s == "" || s[0] < t[0] || (s[0] == t[0] && Less(s[1..], t[1..])))
  }

  lemma {:induction false} LessIrreflexive(s: string)
    ensures !Less(s, s)
  {
    if s != "" {
      LessIrreflexive(s[1..]);
    }
  }

  lemma {:induction false} LessTransitive(s: string, t: string, u: string)
    requires Less(s, t) && Less(t, u)
    ensures Less(s, u)
  {
    if s != "" && s[0] == t[0] && t[0] == u[0] {
      LessTransitive(s[1..], t[1..], u[1..]);
    }
  }

  lemma {:induction false} LessTotal(s: string, t: string)
    ensures Less(s, t) || s == t || Less(t, s)
  {
    if s != "" && t != "" && s[0] == t[0] {
      LessTotal(s[1..], t[1..]);
      assert s == [s[0]] + s[1..] && t == [t[0]] + t[1..];
    }
  }

  lemma LessAsymmetric(a: string, b: string)
    requires Less(a, b)
    ensures !Less(b, a) && a != b
  {
    LessIrreflexive(a);
    if Less(b, a) {
      LessTransitive(a, b, a);
    }
  }

  /** SQL `a < b` and `a <= b` on stored timestamps. */
  predicate Before(a: Instant, b: Instant) { Less(Time(a), Time(b)) }
  predicate NotAfter(a: Instant, b: Instant) { !Less(Time(b), Time(a)) }

  /** s and t agree up to position k, where s has the smaller byte. */
  ghost predicate SmallerAt(s: string, t: string, k: nat) {
    k < |s| && k < |t| && s[..k] == t[..k] && s[k] < t[k]
  }

  ghost predicate Smaller(s: string, t: string) { exists k :: SmallerAt(s, t, k) }

  lemma {:induction false} SmallerIsLess(s: string, t: string, k: nat)
    requires SmallerAt(s, t, k)
    ensures Less(s, t) && !Less(t, s)
  {
    if k > 0 {
      assert s[0] == s[..k][0] && t[0] == t[..k][0];
      assert s[1..][..k - 1] == s[..k][1..] && t[1..][..k - 1] == t[..k][1..];
      SmallerIsLess(s[1..], t[1..], k - 1);
    }
  }

  lemma SmallerInside(p: string, s: string, t: string, x: string, y: string, k: nat)
    requires SmallerAt(s, t, k)
    ensures SmallerAt(p + s + x, p + t + y, |p| + k)
  {
    assert (p + s + x)[..|p| + k] == p + s[..k];
    assert (p + t + y)[..|p| + k] == p + t[..k];
  }

  lemma {:induction false} DigitsGrow(n: nat, m: nat, w: nat) returns (k: nat)
    requires n < m < Pow10(w)
    ensures SmallerAt(Digits(n, w), Digits(m, w), k)
  {
    if n / 10 < m / 10 {
      k := DigitsGrow(n / 10, m / 10, w - 1);
      SmallerInside("", Digits(n / 10, w - 1), Digits(m / 10, w - 1), [Digit(n % 10)], [Digit(m % 10)], k);
      assert "" + Digits(n / 10, w - 1) + [Digit(n % 10)] == Digits(n, w);
      assert "" + Digits(m / 10, w - 1) + [Digit(m % 10)] == Digits(m, w);
    } else {
      k := w - 1;
      assert Digits(n, w)[..k] == Digits(n / 10, w - 1) == Digits(m, w)[..k];
    }
  }

  lemma Pow10Values()
    ensures Pow10(1) == 10 && Pow10(2) == 100 && Pow10(3) == 1000 && Pow10(4) == 10000 && Pow10(9) == SECOND
  {
    assert Pow10(4) == 10 * Pow10(3);
    assert Pow10(5) == 10 * Pow10(4);
    assert Pow10(6) == 10 * Pow10(5);
    assert Pow10(7) == 10 * Pow10(6);
    assert Pow10(8) == 10 * Pow10(7);
  }

  lemma {:induction false} YearsGrow(y: nat, z: nat)
    requires y <= z
    ensures DaysBeforeYear(y) <= DaysBeforeYear(z)
    decreases z
  {
    if y < z {
      YearsGrow(y, z - 1);
    }
  }

  lemma MonthsGrow(y: nat, m: nat, n: nat)
    requires 1 <= m <= n <= 13
    ensures DaysBeforeMonth(y, m) <= DaysBeforeMonth(y, n)
    ensures DaysBeforeMonth(y, n) <= YearLength(y)
  {
  }

  lemma DatesGrow(c: Civil, d: Civil)
    requires c.Valid() && d.Valid() && c.DateBefore(d)
    ensures c.DayNumber() < d.DayNumber()
  {
    if c.year < d.year {
      MonthsGrow(c.year, c.month + 1, 13);
      MonthsGrow(d.year, 1, d.month);
      YearsGrow(c.year + 1, d.year);
    } else if c.month < d.month {
      MonthsGrow(c.year, c.month + 1, d.month);
    }
  }

  lemma TimesGrow(c: Civil, d: Civil)
    requires c.Valid() && d.Valid()
    ensures c.TimeBefore(d) ==> c.TimeOfDay() < d.TimeOfDay()
    ensures c.TimeOfDay() < 86400
  {
  }

  lemma EarlierFields(c: Civil, d: Civil)
    requires c.Valid() && d.Valid() && c.Seconds() < d.Seconds()
    ensures c.DateBefore(d) || (c.SameDate(d) && c.TimeBefore(d))
  {
    TimesGrow(c, d);
    TimesGrow(d, c);
    if d.DateBefore(c) {
      DatesGrow(d, c);
    }
  }

  lemma FieldsGrow(sep: string, n: nat, m: nat, w: nat, x: string, y: string)
    requires n < Pow10(w) && m < Pow10(w)
    requires n < m || (n == m && Smaller(x, y))
    ensures Smaller(Field(sep, n, w, x), Field(sep, m, w, y))
  {
    if n < m {
      var k := DigitsGrow(n, m, w);
      SmallerInside(sep, Digits(n, w), Digits(m, w), x, y, k);
    } else {
      var k :| SmallerAt(x, y, k);
      SmallerInside(sep + Digits(n, w), x, y, "", "", k);
      assert sep + Digits(n, w) + x + "" == Field(sep, n, w, x);
      assert sep + Digits(n, w) + y + "" == Field(sep, n, w, y);
    }
  }

  lemma TimeTextGrows(c: Civil, d: Civil)
    requires c.Valid() && d.Valid() && c.TimeBefore(d)
    ensures Smaller(TimeText(c), TimeText(d))
  {
    hide Field, Digits, Pow10, Smaller;
    Pow10Values();
    var cSec, dSec := Field(":", c.second, 2, ""), Field(":", d.second, 2, "");
    var cMin, dMin := Field(":", c.minute, 2, cSec), Field(":", d.minute, 2, dSec);
    if c.hour == d.hour {
      if c.minute == d.minute {
        FieldsGrow(":", c.second, d.second, 2, "", "");
      }
      FieldsGrow(":", c.minute, d.minute, 2, cSec, dSec);
    }
    FieldsGrow("T", c.hour, d.hour, 2, cMin, dMin);
  }

  lemma MonthTextGrows(c: Civil, d: Civil)
    requires c.Valid() && d.Valid()
    requires c.month < d.month || (c.month == d.month && (c.day < d.day || (c.day == d.day && c.TimeBefore(d))))
    ensures Smaller(MonthText(c), MonthText(d))
  {
    hide Field, TimeText, Digits, Pow10, Smaller;
    Pow10Values();
    if c.month == d.month {
      if c.day == d.day {
        TimeTextGrows(c, d);
      }
      FieldsGrow("-", c.day, d.day, 2, TimeText(c), TimeText(d));
    }
    FieldsGrow("-", c.month, d.month, 2, Field("-", c.day, 2, TimeText(c)), Field("-", d.day, 2, TimeText(d)));
  }

  lemma ClockGrows(c: Civil, d: Civil)
    requires c.Valid() && d.Valid() && c.Seconds() < d.Seconds()
    ensures Smaller(Clock(c), Clock(d))
  {
    hide Field, MonthText, Digits, Pow10, Smaller;
    EarlierFields(c, d);
    Pow10Values();
    if c.year == d.year {
      MonthTextGrows(c, d);
    }
    FieldsGrow("", c.year, d.year, 4, MonthText(c), MonthText(d));
  }

  /** An earlier whole second always sorts first. */
  lemma EarlierSecondSortsFirst(a: Instant, b: Instant)
    requires SecondOf(a) < SecondOf(b)
    ensures Before(a, b) && !Before(b, a)
  {
    hide Clock, CivilOf, Suffix, Fraction, Less;
    var c, d := CivilOf(SecondOf(a)), CivilOf(SecondOf(b));
    ClockGrows(c, d);
    var k :| SmallerAt(Clock(c), Clock(d), k);
    var x, y := Suffix(Fraction(a)), Suffix(Fraction(b));
    SmallerInside("", Clock(c), Clock(d), x, y, k);
    assert "" + Clock(c) + x == Time(a) && "" + Clock(d) + y == Time(b);
    SmallerIsLess(Time(a), Time(b), k);
  }

  /** Two fractions of one second compare like the instants, unless the smaller is a prefix of the larger. */
  lemma FractionsGrow(a: Instant, b: Instant)
    requires NanosOf(a) < NanosOf(b)
    ensures Fraction(b) != "" && Fraction(a) != Fraction(b)
    ensures !(Fraction(a) <= Fraction(b)) ==> Smaller(Fraction(a), Fraction(b))
  {
    Pow10Values();
    var n, m := Digits(NanosOf(a), 9), Digits(NanosOf(b), 9);
    var k := DigitsGrow(NanosOf(a), NanosOf(b), 9);
    var f, g := Fraction(a), Fraction(b);
    assert k < |g| by { assert m[k] != '0'; }
    assert g[k] == m[k] && g[..k] == m[..k];
    if k < |f| {
      assert f[k] == n[k] && f[..k] == n[..k];
      assert SmallerAt(f, g, k);
    } else {
      assert f == n[..|f|] == m[..|f|] == g[..|f|];
    }
  }

  lemma FractionOrder(p: string, f: string, g: string)
    requires AllDigits(f) && AllDigits(g) && f != g && g != ""
    requires f <= g || Smaller(f, g)
    ensures f <= g ==> Less(p + Suffix(g), p + Suffix(f)) && !Less(p + Suffix(f), p + Suffix(g))
    ensures !(f <= g) ==> Less(p + Suffix(f), p + Suffix(g)) && !Less(p + Suffix(g), p + Suffix(f))
  {
    hide Less;
    var x, y := p + Suffix(f), p + Suffix(g);
    if f == "" {
      assert x[..|p|] == p == y[..|p|];
      SmallerIsLess(y, x, |p|);
    } else if f <= g {
      var k := |p| + 1 + |f|;
      assert x[..k] == p + "." + f;
      assert y[..k] == p + "." + g[..|f|];
      assert x[k] == 'Z' && y[k] == g[|f|];
      SmallerIsLess(y, x, k);
    } else {
      var k :| SmallerAt(f, g, k);
      SmallerInside(p + ".", f, g, "Z", "Z", k);
      assert (p + ".") + f + "Z" == x && (p + ".") + g + "Z" == y;
      SmallerIsLess(x, y, |p + "."| + k);
    }
  }

  /**
   * Byte order against time order, exactly: of two instants the earlier one sorts first, except
   * when both lie in one second and the earlier fraction is a prefix of the later one; then the
   * order is reversed.
   */
  lemma TextOrder(a: Instant, b: Instant)
    requires a < b
    ensures Before(a, b) <==> !(SecondOf(a) == SecondOf(b) && Fraction(a) <= Fraction(b))
    ensures Before(b, a) <==> !Before(a, b)
  {
    if SecondOf(a) < SecondOf(b) {
      EarlierSecondSortsFirst(a, b);
    } else {
      FractionsGrow(a, b);
      FractionOrder(Clock(CivilOf(SecondOf(a))), Fraction(a), Fraction(b));
    }
  }

  lemma SecondsGrow(a: Instant, b: Instant)
    requires a + SECOND <= b
    ensures SecondOf(a) < SecondOf(b)
  {
    assert a == SECOND * (SecondOf(a)) + NanosOf(a);
    assert b == SECOND * (SecondOf(b)) + NanosOf(b);
  }

  /** What a deadline compared as text guarantees about real time: right up to one second. */
  lemma WithinASecond(a: Instant, b: Instant)
    ensures NotAfter(a, b) ==> a < b + SECOND
    ensures Before(a, b) ==> a < b + SECOND
    ensures a + SECOND <= b ==> Before(a, b) && NotAfter(a, b)
  {
    if b + SECOND <= a {
      SecondsGrow(b, a);
      EarlierSecondSortsFirst(b, a);
    }
    if a + SECOND <= b {
      SecondsGrow(a, b);
      EarlierSecondSortsFirst(a, b);
    }
  }

  /** The slack is real: a whole second sorts after every later instant of the same second. */
  lemma WholeSecondSortsLast(a: Instant, b: Instant)
    requires NanosOf(a) == 0 && a < b < a + SECOND
    ensures Before(b, a) && !Before(a, b)
  {
    assert SecondOf(a) == SecondOf(b);
    Pow10Values();
    ZeroTrims(9);
    TextOrder(a, b);
  }

  lemma {:induction false} ZeroTrims(w: nat)
    ensures Trim(Digits(0, w)) == ""
  {
    if w > 0 {
      ZeroTrims(w - 1);
      assert Digits(0, w)[..w - 1] == Digits(0, w - 1);
    }
  }

  // ---- reading a stored timestamp back ----

  /** A separator, then a number of exactly w digits; what follows them is handed on. */
  function TakeField(s: string, sep: string, w: nat): Option<(nat, string)> {
    if sep <= s && |s| >= |sep| + w && AllDigits(s[|sep|..|sep| + w])
    then Some((Value(s[|sep|..|sep| + w]), s[|sep| + w..]))
    else None
  }

  /** Nanoseconds from what follows the seconds; digits after the ninth are ignored. */
  function TakeFraction(s: string): Option<nat> {
    if s == "Z" then Some(0)
    else if |s| >= 3 && s[0] == '.' && s[|s| - 1] == 'Z' && AllDigits(s[1..|s| - 1]) then
      var digits := s[1..|s| - 1][..Min(9, |s| - 2)];
      Some(Value(digits) * Pow10(9 - |digits|))
    else None
  }

  function TakeTime(c: Civil, s: string): Option<Instant> {
    var (h, s4) :- TakeField(s, "T", 2);
    var (mi, s5) :- TakeField(s4, ":", 2);
    var (sec, s6) :- TakeField(s5, ":", 2);
    var ns :- TakeFraction(s6);
    var d := c.(hour := h, minute := mi, second := sec);
    if !d.Valid() then None else
      var t := d.Seconds() * SECOND + ns;
      if 0 <= t < DAYS * DAY then Some(t) else None
  }

  /** The inverse of Time, for timestamps written in UTC. */
  function ParseTime(s: string): Option<Instant> {
    var (y, s1) :- TakeField(s, "", 4);
    var (m, s2) :- TakeField(s1, "-", 2);
    var (d, s3) :- TakeField(s2, "-", 2);
    TakeTime(Civil(y, m, d, 0, 0, 0), s3)
  }

  lemma TakeBack(sep: string, n: nat, w: nat, rest: string)
    requires n < Pow10(w)
    ensures TakeField(Field(sep, n, w, rest), sep, w) == Some((n, rest))
  {
    var s := Field(sep, n, w, rest);
    assert s[..|sep|] == sep && s[|sep|..|sep| + w] == Digits(n, w) && s[|sep| + w..] == rest;
    ValueOfDigits(n, w);
  }

  lemma {:induction false} TrimValue(s: string)
    requires AllDigits(s)
    ensures AllDigits(Trim(s)) && Value(Trim(s)) * Pow10(|s| - |Trim(s)|) == Value(s)
  {
    if s == "" || s[|s| - 1] != '0' {
      assert Trim(s) == s;
    } else {
      var init := s[..|s| - 1];
      TrimValue(init);
      assert Trim(s) == Trim(init);
      ScaleOnce(Value(Trim(init)), |init| - |Trim(init)|);
    }
  }

  lemma ScaleOnce(v: nat, k: nat)
    ensures v * Pow10(k + 1) == 10 * (v * Pow10(k))
  {
  }

  lemma PointBack(f: string)
    requires AllDigits(f) && 0 < |f| <= 9
    ensures TakeFraction("." + f + "Z") == Some(Value(f) * Pow10(9 - |f|))
  {
    hide Pow10, Value;
    var s := "." + f + "Z";
    assert s[1..|s| - 1] == f;
    assert f[..|f|] == f;
  }

  lemma SuffixBack(f: string)
    requires AllDigits(f) && |f| <= 9
    ensures TakeFraction(Suffix(f)) == Some(Value(f) * Pow10(9 - |f|))
  {
    hide Pow10;
    if f == "" {
      assert Suffix(f) == "Z" && Value(f) == 0;
    } else {
      PointBack(f);
    }
  }

  lemma FractionBack(t: Instant)
    ensures TakeFraction(Suffix(Fraction(t))) == Some(NanosOf(t))
  {
    hide TakeFraction, Suffix, Trim, Value;
    Pow10Values();
    SuffixBack(Fraction(t));
    ValueOfDigits(NanosOf(t), 9);
    TrimValue(Digits(NanosOf(t), 9));
  }

  lemma FieldAppend(sep: string, n: nat, w: nat, x: string, y: string)
    ensures Field(sep, n, w, x) + y == Field(sep, n, w, x + y)
  {
  }

  lemma TimeFields(c: Civil, rest: string)
    ensures TimeText(c) + rest == Field("T", c.hour, 2, Field(":", c.minute, 2, Field(":", c.second, 2, rest)))
  {
    var s := Field(":", c.second, 2, "");
    assert "" + rest == rest;
    FieldAppend(":", c.second, 2, "", rest);
    FieldAppend(":", c.minute, 2, s, rest);
    FieldAppend("T", c.hour, 2, Field(":", c.minute, 2, s), rest);
  }

  lemma ClockFields(c: Civil, rest: string)
    ensures Clock(c) + rest == Field("", c.year, 4, Field("-", c.month, 2, Field("-", c.day, 2, TimeText(c) + rest)))
  {
    var d := Field("-", c.day, 2, TimeText(c));
    FieldAppend("-", c.day, 2, TimeText(c), rest);
    FieldAppend("-", c.month, 2, d, rest);
    FieldAppend("", c.year, 4, MonthText(c), rest);
  }

  lemma TimeBack(c: Civil, t: Instant)
    requires c == CivilOf(SecondOf(t))
    ensures TakeTime(Civil(c.year, c.month, c.day, 0, 0, 0), TimeText(c) + Suffix(Fraction(t))) == Some(t)
  {
    hide TakeField, TakeFraction, Field, Suffix, TimeText, CivilOf, Pow10;
    var rest := Suffix(Fraction(t));
    var s := Field(":", c.second, 2, rest);
    TimeFields(c, rest);
    Pow10Values();
    FractionBack(t);
    TakeBack("T", c.hour, 2, Field(":", c.minute, 2, s));
    TakeBack(":", c.minute, 2, s);
    TakeBack(":", c.second, 2, rest);
  }

  /** Reading a stored timestamp gives back the very instant that was stored. */
  lemma ParseTimeOfTime(t: Instant)
    ensures ParseTime(Time(t)) == Some(t)
  {
    hide TakeField, TakeTime, Field, TimeText, Suffix, Clock, CivilOf, Pow10;
    var c := CivilOf(SecondOf(t));
    var rest := TimeText(c) + Suffix(Fraction(t));
    var d := Field("-", c.day, 2, rest);
    ClockFields(c, Suffix(Fraction(t)));
    Pow10Values();
    TakeBack("", c.year, 4, Field("-", c.month, 2, d));
    TakeBack("-", c.month, 2, d);
    TakeBack("-", c.day, 2, rest);
    TimeBack(c, t);
  }

  /** So two instants share a stored text only when they are the same instant. */
  lemma TimeInjective(a: Instant, b: Instant)
    ensures Time(a) == Time(b) ==> a == b
  {
    ParseTimeOfTime(a);
    ParseTimeOfTime(b);
  }

  // ---- the calendar in figures ----

  predicate TwoFigures(s: string) { |s| == 2 && AllDigits(s) }

  function DateText(y: string, mo: string, d: string, h: string, mi: string, s: string): string {
    "" + y + ("-" + mo + ("-" + d + ClockText(h, mi, s)))
  }

  function ClockText(h: string, mi: string, s: string): string { "T" + h + (":" + mi + (":" + s + "Z")) }

  /** A text of four and two digits in their places denotes the second that the calendar gives it. */
  lemma Reads(y: string, mo: string, d: string, h: string, mi: string, s: string, c: Civil)
    requires |y| == 4 && AllDigits(y) && TwoFigures(mo) && TwoFigures(d) && TwoFigures(h) && TwoFigures(mi) && TwoFigures(s)
    requires Value(y) == c.year && Value(mo) == c.month && Value(d) == c.day
    requires Value(h) == c.hour && Value(mi) == c.minute && Value(s) == c.second
    requires c.Valid() && 0 <= c.Seconds() * SECOND < DAYS * DAY
    ensures ParseTime(DateText(y, mo, d, h, mi, s)) == Some(c.Seconds() * SECOND)
  {
    hide Value, AllDigits, DaysBeforeYear, DaysBeforeMonth, TakeField, ClockText, TakeTime;
    TakesText("", y, "-" + mo + ("-" + d + ClockText(h, mi, s)));
    TakesText("-", mo, "-" + d + ClockText(h, mi, s));
    TakesText("-", d, ClockText(h, mi, s));
    ReadsClock(h, mi, s, c);
  }

  lemma ReadsClock(h: string, mi: string, s: string, c: Civil)
    requires TwoFigures(h) && TwoFigures(mi) && TwoFigures(s)
    requires Value(h) == c.hour && Value(mi) == c.minute && Value(s) == c.second
    requires c.Valid() && 0 <= c.Seconds() * SECOND < DAYS * DAY
    ensures TakeTime(Civil(c.year, c.month, c.day, 0, 0, 0), ClockText(h, mi, s)) == Some(c.Seconds() * SECOND)
  {
    hide Value, AllDigits, DaysBeforeYear, DaysBeforeMonth, TakeField;
    TakesText("T", h, ":" + mi + (":" + s + "Z"));
    TakesText(":", mi, ":" + s + "Z");
    TakesText(":", s, "Z");
  }

  lemma TakesText(sep: string, digits: string, rest: string)
    requires AllDigits(digits)
    ensures TakeField(sep + digits + rest, sep, |digits|) == Some((Value(digits), rest))
  {
    var s := sep + digits + rest;
    assert s[|sep|..|sep| + |digits|] == digits && s[|sep| + |digits|..] == rest && s[..|sep|] == sep;
  }

  /** The months of the year. */
  lemma MonthLengths(y: nat, m: nat)
    requires 1 <= m <= 12
    ensures DaysBeforeMonth(y, m + 1) - DaysBeforeMonth(y, m) ==
      if m == 2 then (if y % 4 == 0 && (y % 100 != 0 || y % 400 == 0) then 29 else 28)
      else if m == 4 || m == 6 || m == 9 || m == 11 then 30 else 31
  {
  }
}
