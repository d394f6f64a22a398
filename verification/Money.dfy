/**
 * Invoice amounts (internal/web/invoices.go, parseMoney) are kept in cents, in an int64. What the edit
 * form prints is read back unchanged for every amount an int64 holds; and for amounts written with
 * digits the result is the decimal value exactly when that fits.
 */
module Money {
  import opened Basics

  /** Go arithmetic on int64 wraps around. */
  function Wrap(n: int): (r: int)
    ensures -MAX_INT64 - 1 <= r <= MAX_INT64
    ensures -MAX_INT64 - 1 <= n <= MAX_INT64 ==> r == n
  {
    (n + MAX_INT64 + 1) % (2 * MAX_INT64 + 2) - MAX_INT64 - 1
  }

  /** unicode.IsSpace. */
  predicate IsSpace(c: char) {
    || '\t' <= c <= '\r' || c == ' ' || c == '\U{85}' || c == '\U{A0}' || c == '\U{1680}' || '\U{2000}' <= c <= '\U{200A}'
    || c == '\U{2028}' || c == '\U{2029}' || c == '\U{202F}' || c == '\U{205F}' || c == '\U{3000}'
  }

  function TrimLeft(s: string): string { if s != "" && IsSpace(s[0]) then TrimLeft(s[1..]) else s }

  function TrimRight(s: string): string { if s != "" && IsSpace(s[|s| - 1]) then TrimRight(s[..|s| - 1]) else s }

  /** strings.TrimSpace. */
  function TrimSpace(s: string): string { TrimRight(TrimLeft(s)) }

  /** strings.ReplaceAll(s, ",", ""). */
  function NoCommas(s: string): string {
    if s == "" then "" else (if s[0] == ',' then "" else [s[0]]) + NoCommas(s[1..])
  }

  /** The part of s before its first dot. */
  function BeforeDot(s: string): string { if s == "" || s[0] == '.' then "" else [s[0]] + BeforeDot(s[1..]) }

  /** The part after it; empty when there is none. */
  function AfterDot(s: string): string { if s == "" then "" else if s[0] == '.' then s[1..] else AfterDot(s[1..]) }

  /** strconv.ParseInt(s, 10, 64): a sign, then digits, in range. */
  function ParseInt(s: string): (r: Option<int>)
    ensures r.Some? ==> -MAX_INT64 - 1 <= r.value <= MAX_INT64
  {
    var signed := s != "" && (s[0] == '+' || s[0] == '-');
    var digits := if signed then s[1..] else s;
    if digits == "" || !AllDigits(digits) then None
    else
      var size: int := Value(digits);
      var n := if signed && s[0] == '-' then -size else size;
      if n < -MAX_INT64 - 1 || n > MAX_INT64 then None else Some(n)
  }

  function Padded(frac: string): string
    requires |frac| <= 2
  {
    if |frac| == 2 then frac else if |frac| == 1 then frac + "0" else "00"
  }

  /** The cents that parseMoney returns, None for an error. */
  function MoneyOf(s: string): Option<int> {
    var t := NoCommas(TrimSpace(s));
    var whole, frac := BeforeDot(t), AfterDot(t);
    if whole == "" || |frac| > 2 then None
    else
      var w :- ParseInt(whole);
      if w < 0 then None
      else
        var f :- ParseInt(Padded(frac));
        Some(Wrap(w * 100 + f))
  }

  method ParseMoney(s: string) returns (r: Option<int>)
    ensures r == MoneyOf(s)
  {
    var t := NoCommas(TrimSpace(s));
    var whole, frac := BeforeDot(t), AfterDot(t);
    if whole == "" || |frac| > 2 {
      return None;
    }
    ghost var was := frac;
    while |frac| < 2
      invariant |frac| <= 2 && Padded(frac) == Padded(was)
      decreases 2 - |frac|
    {
      frac := frac + "0";
    }
    var w := ParseInt(whole);
    if w.None? || w.value < 0 {
      return None;
    }
    var f := ParseInt(frac);
    if f.None? {
      return None;
    }
    return Some(Wrap(w.value * 100 + f.value));
  }

  // ---- amounts written with digits ----

  predicate DigitsAndCommas(s: string) { forall c | c in s :: IsDigit(c) || c == ',' }

  predicate NoSpace(s: string) { forall c | c in s :: !IsSpace(c) }

  lemma NoTrim(s: string)
    requires NoSpace(s)
    ensures TrimSpace(s) == s
  {
  }

  lemma {:induction false} NoCommasDigits(s: string)
    requires DigitsAndCommas(s)
    ensures AllDigits(NoCommas(s))
  {
    if s != "" {
      NoCommasDigits(s[1..]);
    }
  }

  lemma {:induction false} NoCommasJoin(s: string, t: string)
    ensures NoCommas(s + t) == NoCommas(s) + NoCommas(t)
  {
    if s == "" {
      assert s + t == t;
    } else {
      assert (s + t)[1..] == s[1..] + t;
      NoCommasJoin(s[1..], t);
    }
  }

  lemma {:induction false} NoCommasSame(s: string)
    requires ',' !in s
    ensures NoCommas(s) == s
  {
    if s != "" {
      NoCommasSame(s[1..]);
    }
  }

  lemma {:induction false} CutAt(whole: string, rest: string)
    requires '.' !in whole
    ensures BeforeDot(whole + "." + rest) == whole && AfterDot(whole + "." + rest) == rest
    ensures BeforeDot(whole) == whole && AfterDot(whole) == ""
  {
    if whole == "" {
      assert "" + "." + rest == "." + rest && ("." + rest)[1..] == rest;
    } else {
      assert (whole + "." + rest)[1..] == whole[1..] + "." + rest;
      CutAt(whole[1..], rest);
    }
  }

  lemma DigitsAreInts(digits: string)
    requires AllDigits(digits) && digits != ""
    ensures ParseInt(digits) == if Value(digits) <= MAX_INT64 then Some(Value(digits)) else None
  {
    assert IsDigit(digits[0]);
  }

  /** Cents for a fraction of at most two digits. */
  function Cents(frac: string): nat
    requires AllDigits(frac) && |frac| <= 2
  {
    if frac == "" then 0 else if |frac| == 1 then 10 * Value(frac) else Value(frac)
  }

  lemma CentsOfPadded(frac: string)
    requires AllDigits(frac) && |frac| <= 2
    ensures AllDigits(Padded(frac)) && Value(Padded(frac)) == Cents(frac) <= 99
  {
    var p := Padded(frac);
    assert p[..1] == [p[0]] && [p[0]][..0] == "" && Value([p[0]]) == DigitValue(p[0]);
    assert Value(p) == 10 * DigitValue(p[0]) + DigitValue(p[1]);
    if |frac| == 1 {
      assert frac == [p[0]];
    }
  }

  lemma PaddedSome(frac: string)
    requires |frac| <= 2
    ensures Padded(frac) != ""
  {
  }

  lemma NoCents()
    ensures Cents("") == 0
  {
  }

  /** An amount of digits and commas, with a dot and at most two more digits, or without. */
  function AmountText(whole: string, frac: Option<string>): string { if frac.None? then whole else whole + "." + frac.value }

  lemma AmountRead(whole: string, frac: Option<string>)
    requires DigitsAndCommas(whole) && (frac.Some? ==> AllDigits(frac.value))
    ensures
      var t := NoCommas(TrimSpace(AmountText(whole, frac)));
      BeforeDot(t) == NoCommas(whole) && AfterDot(t) == if frac.None? then "" else frac.value
  {
    var s := AmountText(whole, frac);
    assert NoSpace(s);
    NoTrim(s);
    NoCommasDigits(whole);
    if frac.Some? {
      NoCommasJoin(whole + ".", frac.value);
      NoCommasJoin(whole, ".");
      NoCommasSame(".");
      NoCommasSame(frac.value);
      CutAt(NoCommas(whole), frac.value);
    } else {
      CutAt(NoCommas(whole), "");
    }
  }

  /**
   * Digits with commas anywhere and at most two decimals are read as exactly a hundred times their
   * value when and only when that many cents fit an int64. Above that the whole part may still parse,
   * and then the amount silently wraps around.
   */
  lemma DigitsReadExactly(whole: string, frac: Option<string>)
    requires DigitsAndCommas(whole) && NoCommas(whole) != "" && AllDigits(NoCommas(whole))
    requires frac.Some? ==> AllDigits(frac.value) && |frac.value| <= 2
    ensures
      var cents := 100 * Value(NoCommas(whole)) + if frac.None? then 0 else Cents(frac.value);
      && (MoneyOf(AmountText(whole, frac)) == Some(cents) <==> cents <= MAX_INT64)
      && MoneyOf(AmountText(whole, frac)) == if Value(NoCommas(whole)) > MAX_INT64 then None else Some(Wrap(cents))
  {
    hide TrimSpace, NoCommas, BeforeDot, AfterDot, Wrap, Value, ParseInt, Cents, Padded, AmountText;
    AmountRead(whole, frac);
    DigitsAreInts(NoCommas(whole));
    var f := if frac.None? then "" else frac.value;
    CentsOfPadded(f);
    PaddedSome(f);
    DigitsAreInts(Padded(f));
    assert Cents("") == 0 by { NoCents(); }
  }

  // ---- the round trip ----

  /** What the edit form prints: "%d.%02d" of c/100 and c%100. */
  function Amount(c: nat): string { Decimal(c / 100) + "." + Digits(c % 100, 2) }

  /** Every amount an int64 holds survives being shown in the form and sent back. */
  lemma AmountRoundTrip(c: nat)
    ensures MoneyOf(Amount(c)) == Some(c) <==> c <= 9_223_372_036_854_775_807
  {
    hide MoneyOf, Wrap, Digits, Decimal, Value, Cents;
    var whole, frac := Decimal(c / 100), Digits(c % 100, 2);
    DecimalPlain(c / 100);
    CentsOfDigits(c % 100);
    DigitsReadExactly(whole, Some(frac));
    assert 100 * (c / 100) + c % 100 == c;
  }

  lemma DecimalPlain(n: nat)
    ensures DigitsAndCommas(Decimal(n)) && NoCommas(Decimal(n)) == Decimal(n) && Value(Decimal(n)) == n
  {
    assert ',' !in Decimal(n);
    NoCommasSame(Decimal(n));
    ValueOfDecimal(n);
  }

  lemma CentsOfDigits(n: nat)
    requires n < 100
    ensures Cents(Digits(n, 2)) == n
  {
    assert Pow10(2) == 10 * Pow10(1) == 100 * Pow10(0);
    ValueOfDigits(n, 2);
  }

  // ---- what else is accepted ----

  /** A whole part that is in range while its cents are not: the amount silently wraps around. */
  lemma WrapsAround(w: nat)
    requires w <= MAX_INT64 < 100 * w
    ensures MoneyOf(Decimal(w)) == Some(Wrap(100 * w)) && Wrap(100 * w) != 100 * w
    ensures w == 92233720368547759 ==> MoneyOf(Decimal(w)) == Some(-9223372036854775716)
  {
    hide MoneyOf, Decimal, Value;
    DecimalPlain(w);
    DigitsReadExactly(Decimal(w), None);
  }

  predicate HasSign(s: string) { s != "" && (s[0] == '+' || s[0] == '-') }

  predicate Negative(s: string) { s != "" && s[0] == '-' }

  function Unsigned(s: string): string { if HasSign(s) then s[1..] else s }

  /** The parts that parseMoney accepts: a sign is allowed before either, but not a whole part below zero. */
  predicate Accepted(whole: string, frac: string) {
    && Unsigned(whole) != "" && AllDigits(Unsigned(whole)) && Value(Unsigned(whole)) <= MAX_INT64
    && (Negative(whole) ==> Value(Unsigned(whole)) == 0)
    && |frac| <= 2 && AllDigits(Unsigned(frac))
  }

  /** The cents it takes the fraction for: a sign and what follows are a number of their own. */
  function FractionCents(frac: string): int
    requires |frac| <= 2 && AllDigits(Unsigned(frac))
  {
    var size: int := Value(Unsigned(frac));
    if !HasSign(frac) then Cents(frac) else if Negative(frac) then -size else size
  }

  lemma IntExactly(s: string)
    ensures
      var d := Unsigned(s);
      && (ParseInt(s).Some? <==> d != "" && AllDigits(d) && Value(d) <= MAX_INT64 + if Negative(s) then 1 else 0)
      && (ParseInt(s).Some? ==> ParseInt(s).value == if Negative(s) then 0 - Value(d) as int else Value(d))
  {
  }

  /** One digit after the point stands for tens of cents, one digit after a sign for units. */
  lemma PaddedSigned(frac: string)
    requires |frac| <= 2 && HasSign(frac)
    ensures HasSign(Padded(frac)) && Negative(Padded(frac)) == Negative(frac)
    ensures Unsigned(Padded(frac)) != "" && (AllDigits(Unsigned(Padded(frac))) <==> AllDigits(Unsigned(frac)))
    ensures AllDigits(Unsigned(frac)) ==> Value(Unsigned(Padded(frac))) == Value(Unsigned(frac)) <= 9
  {
    var u := Unsigned(Padded(frac));
    assert |u| == 1 && u[..0] == "" && u == [u[0]];
    if |frac| == 1 {
      assert Unsigned(frac) == "" && u == "0";
    } else {
      assert Padded(frac) == frac;
    }
  }

  lemma PaddedPlain(frac: string)
    requires |frac| <= 2 && !HasSign(frac)
    ensures !HasSign(Padded(frac)) && Padded(frac) != ""
    ensures AllDigits(Padded(frac)) <==> AllDigits(frac)
    ensures AllDigits(frac) ==> Value(Padded(frac)) == Cents(frac) <= 99
  {
    hide Value, Cents;
    var p := Padded(frac);
    forall i | 0 <= i < |frac|
      ensures frac[i] == p[i]
    {
    }
    if AllDigits(frac) {
      CentsOfPadded(frac);
    }
  }

  lemma FractionExactly(frac: string)
    requires |frac| <= 2
    ensures ParseInt(Padded(frac)) == if AllDigits(Unsigned(frac)) then Some(FractionCents(frac)) else None
  {
    hide Value, Cents, Padded, ParseInt;
    IntExactly(Padded(frac));
    if HasSign(frac) {
      PaddedSigned(frac);
    } else {
      PaddedPlain(frac);
    }
  }

  /** For every text: whether parseMoney accepts it, and what it then returns. */
  lemma ParsedExactly(s: string)
    ensures
      var t := NoCommas(TrimSpace(s));
      var whole, frac := BeforeDot(t), AfterDot(t);
      MoneyOf(s) ==
        if Accepted(whole, frac) then Some(Wrap(100 * Value(Unsigned(whole)) + FractionCents(frac))) else None
  {
    hide Value, Cents, Padded, ParseInt, Wrap, TrimSpace, NoCommas, BeforeDot, AfterDot, FractionCents;
    var t := NoCommas(TrimSpace(s));
    var whole, frac := BeforeDot(t), AfterDot(t);
    IntExactly(whole);
    if |frac| <= 2 {
      FractionExactly(frac);
    }
  }

  /** The cents that a text denotes as a decimal number; a sign inside the fraction denotes none. */
  function Denoted(whole: string, frac: string): Option<int>
    requires Accepted(whole, frac)
  {
    if HasSign(frac) then None
    else
      var size: int := 100 * Value(Unsigned(whole)) + Cents(frac);
      Some(if Negative(whole) then -size else size)
  }

  /**
   * An accepted text is read as the decimal number it denotes exactly when its fraction carries no sign, a
   * minus before the whole part leaves nothing to negate, and the cents fit an int64.
   */
  lemma FaithfulExactly(s: string)
    ensures
      var t := NoCommas(TrimSpace(s));
      var whole, frac := BeforeDot(t), AfterDot(t);
      Accepted(whole, frac) ==>
        (MoneyOf(s) == Denoted(whole, frac) <==>
          && !HasSign(frac) && (Negative(whole) ==> Cents(frac) == 0)
          && 100 * Value(Unsigned(whole)) + Cents(frac) <= MAX_INT64)
  {
    hide Value, Cents, MoneyOf, Wrap, TrimSpace, NoCommas, BeforeDot, AfterDot;
    ParsedExactly(s);
    var frac := AfterDot(NoCommas(TrimSpace(s)));
    if AllDigits(frac) && |frac| <= 2 {
      CentsOfPadded(frac);
    }
  }

  // ---- texts that are misread ----

  /** The parts of a text without spaces and commas. */
  lemma PartsOf(whole: string, frac: string)
    requires '.' !in whole && NoSpace(whole + "." + frac) && ',' !in whole + "." + frac
    ensures
      var t := NoCommas(TrimSpace(whole + "." + frac));
      BeforeDot(t) == whole && AfterDot(t) == frac
  {
    NoTrim(whole + "." + frac);
    NoCommasSame(whole + "." + frac);
    CutAt(whole, frac);
  }

  /** A minus before a whole part of zero is lost: "-0.50" is fifty cents, not fifty cents less than nothing. */
  lemma MinusIsLost(frac: string)
    requires AllDigits(frac) && |frac| == 2
    ensures MoneyOf("-0." + frac) == Some(Cents(frac))
  {
    hide TrimSpace, NoCommas, BeforeDot, AfterDot, MoneyOf, Wrap;
    assert "-0" + "." + frac == "-0." + frac;
    assert !HasSign(frac) by { assert IsDigit(frac[0]); }
    PartsOf("-0", frac);
    ParsedExactly("-0." + frac);
    assert "-0"[1..] == "0" && "0"[..0] == "" && Value("0") == 0;
    CentsOfPadded(frac);
  }

  lemma MinusFifty()
    ensures MoneyOf("-0.50") == Some(50)
  {
    hide MoneyOf;
    assert "50"[..1] == "5" && "5"[..0] == "" && Value("5") == 5 && Cents("50") == 50;
    assert "-0." + "50" == "-0.50";
    MinusIsLost("50");
  }

  /** A sign in the fraction is taken as a number of its own: "1.-5" is 95 cents, "0.+5" is 5. */
  lemma SignedFraction(whole: string, sign: char, d: char)
    requires AllDigits(whole) && whole != "" && IsDigit(d) && (sign == '+' || sign == '-') && Value(whole) <= MAX_INT64
    ensures MoneyOf(whole + "." + [sign, d]) == Some(Wrap(100 * Value(whole) + if sign == '-' then 0 - DigitValue(d) as int else DigitValue(d)))
  {
    hide TrimSpace, NoCommas, BeforeDot, AfterDot, MoneyOf, Wrap, Value;
    var f := [sign, d];
    PlainChars(whole, sign, d);
    PartsOf(whole, f);
    ParsedExactly(whole + "." + f);
    assert !HasSign(whole) by { assert IsDigit(whole[0]); }
    OneDigit(d);
    assert f[1..] == [d];
  }

  lemma PlainChars(whole: string, sign: char, d: char)
    requires AllDigits(whole) && IsDigit(d) && (sign == '+' || sign == '-')
    ensures
      var s := whole + "." + [sign, d];
      NoSpace(s) && ',' !in s && '.' !in whole
  {
  }

  lemma OneDigit(d: char)
    requires IsDigit(d)
    ensures AllDigits([d]) && Value([d]) == DigitValue(d)
  {
    assert [d][..0] == "";
  }

  /** The form of an amount: whole units, a point, and two digits. */
  lemma AmountShown(units: nat, a: nat, b: nat)
    requires a < 10 && b < 10
    ensures Amount(100 * units + 10 * a + b) == Decimal(units) + "." + [Digit(a), Digit(b)]
  {
    hide Decimal;
    var c := 100 * units + 10 * a + b;
    assert c / 100 == units && c % 100 == 10 * a + b;
    TwoDigits(a, b);
  }

  lemma TwoDigits(a: nat, b: nat)
    requires a < 10 && b < 10
    ensures Digits(10 * a + b, 2) == [Digit(a), Digit(b)]
  {
    hide Digits;
    LastDigit(a, b, 2);
    LastDigit(0, a, 1);
    assert Digits(0, 0) == "";
  }

  lemma LastDigit(q: nat, r: nat, w: nat)
    requires r < 10 && w > 0
    ensures Digits(10 * q + r, w) == Digits(q, w - 1) + [Digit(r)]
  {
    assert (10 * q + r) / 10 == q && (10 * q + r) % 10 == r;
  }

  /** Trimming takes away the white space at both ends and nothing else. */
  lemma TrimExactly(s: string) returns (a: string, b: string)
    ensures s == a + TrimSpace(s) + b && (forall c | c in a + b :: IsSpace(c))
    ensures TrimSpace(s) != "" ==> !IsSpace(TrimSpace(s)[0]) && !IsSpace(TrimSpace(s)[|TrimSpace(s)| - 1])
    ensures IsSpace(' ') && IsSpace('\t') && IsSpace('\n') && IsSpace('\r') && !IsSpace('.') && !IsSpace('-') && forall c | IsDigit(c) :: !IsSpace(c)
  {
    hide IsSpace;
    a := LeftTrimmed(s);
    b := RightTrimmed(TrimLeft(s));
    var t := TrimSpace(s);
    assert s == a + (t + b) == a + t + b;
    assert t != "" ==> TrimLeft(s)[0] == t[0];
    Spaces();
  }

  lemma Spaces()
    ensures IsSpace(' ') && IsSpace('\t') && IsSpace('\n') && IsSpace('\r') && !IsSpace('.') && !IsSpace('-') && forall c | IsDigit(c) :: !IsSpace(c)
  {
  }

  lemma {:induction false} LeftTrimmed(s: string) returns (a: string)
    ensures s == a + TrimLeft(s) && forall c | c in a :: IsSpace(c)
    ensures TrimLeft(s) != "" ==> !IsSpace(TrimLeft(s)[0])
  {
    hide IsSpace;
    a := "";
    if s != "" && IsSpace(s[0]) {
      var rest := LeftTrimmed(s[1..]);
      a := [s[0]] + rest;
    }
  }

  lemma {:induction false} RightTrimmed(s: string) returns (b: string)
    ensures s == TrimRight(s) + b && forall c | c in b :: IsSpace(c)
    ensures TrimRight(s) != "" ==> !IsSpace(TrimRight(s)[|TrimRight(s)| - 1])
  {
    hide IsSpace;
    b := "";
    if s != "" && IsSpace(s[|s| - 1]) {
      var rest := RightTrimmed(s[..|s| - 1]);
      b := rest + [s[|s| - 1]];
    }
  }
}
