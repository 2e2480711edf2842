/**
 * Exact decimal canonicalisation of JSON number tokens (section 6 of RFC 8259), without
 * passing through IEEE numbers.  Text is a sequence of UTF-16 code units.
 */
module Decimals {
  import opened Common

  type Unit = int
  type Text = seq<Unit>

  const ZERO: Unit := 48
  const MINUS: Unit := 45
  const PLUS: Unit := 43
  const POINT: Unit := 46
  const LOWER_E: Unit := 101
  const UPPER_E: Unit := 69

  predicate IsDigit(c: Unit) {
    48 <= c <= 57
  }

  predicate AllDigits(s: Text) {
    forall i :: 0 <= i < |s| ==> IsDigit(s[i])
  }

  function Zeros(n: nat): (z: Text)
    ensures |z| == n && AllDigits(z)
  {
    seq(n, _ => ZERO)
  }

  function Pow10(n: nat): nat {
    if n == 0 then 1 else 10 * Pow10(n - 1)
  }

  function DigitsValue(s: Text): nat
    requires AllDigits(s)
  {
    if s == [] then 0 else DigitsValue(s[..|s| - 1]) * 10 + (s[|s| - 1] - 48)
  }

  /** String(n) for a natural number. */
  function NatText(n: nat): (s: Text)
    ensures s != [] && AllDigits(s)
    ensures n > 0 ==> s[0] != ZERO
    ensures n == 0 ==> s == [ZERO]
  {
    if n < 10 then [48 + n] else NatText(n / 10) + [48 + n % 10]
  }

  function IntText(n: int): Text {
    if n < 0 then [MINUS] + NatText(-n) else NatText(n)
  }

  // ---- tokens ----

  /** The groups a number token's pattern captures. */
  datatype Token = Token(negative: bool, whole: Text, fraction: Text, exponent: int)

  predicate IsToken(t: Token) {
    && t.whole != [] && AllDigits(t.whole) && AllDigits(t.fraction)
    && (t.whole[0] == ZERO ==> |t.whole| == 1)
  }

  function Signed(negative: bool, magnitude: nat): int {
    if negative then -(magnitude as int) else magnitude
  }

  /** coefficient * 10^exponent */
  datatype Decimal = Decimal(coefficient: int, exponent: int)

  function TokenValue(t: Token): Decimal
    requires IsToken(t)
  {
    Decimal(Signed(t.negative, DigitsValue(t.whole + t.fraction)), t.exponent - |t.fraction|)
  }

  /** Equality of the two rationals, by bringing both to the smaller exponent. */
  predicate SameNumber(a: Decimal, b: Decimal) {
    var k := Min(a.exponent, b.exponent);
    a.coefficient * Pow10(a.exponent - k) == b.coefficient * Pow10(b.exponent - k)
  }

  function NormalForm(d: Decimal): (n: Decimal)
    ensures IsNormal(n)
    decreases if d.coefficient < 0 then -d.coefficient else d.coefficient
  {
    if d.coefficient == 0 then Decimal(0, 0)
    else if d.coefficient % 10 == 0 then NormalForm(Decimal(d.coefficient / 10, d.exponent + 1))
    else d
  }

  predicate IsNormal(d: Decimal) {
    if d.coefficient == 0 then d.exponent == 0 else d.coefficient % 10 != 0
  }

  lemma PowStep(n: nat)
    ensures Pow10(0) == 1 && Pow10(n + 1) == 10 * Pow10(n)
  {}

  lemma TimesTen(x: int, y: int)
    ensures (10 * x) * y == 10 * (x * y) && x * (10 * y) == 10 * (x * y)
  {}

  lemma {:induction false} PowAdd(a: nat, b: nat)
    ensures Pow10(a + b) == Pow10(a) * Pow10(b)
  {
    hide Pow10;
    if a > 0 {
      PowAdd(a - 1, b);
      PowStep(a - 1);
      PowStep(a - 1 + b);
      TimesTen(Pow10(a - 1), Pow10(b));
    } else {
      PowStep(0);
    }
  }

  lemma NormalFormOfTen(d: int, e: int)
    ensures NormalForm(Decimal(10 * d, e)) == NormalForm(Decimal(d, e + 1))
  {
    if d != 0 { assert (10 * d) % 10 == 0 && (10 * d) / 10 == d; }
  }

  lemma {:induction false} NormalFormScales(c: int, e: int, k: nat)
    ensures NormalForm(Decimal(c * Pow10(k), e)) == NormalForm(Decimal(c, e + k))
    decreases k
  {
    hide NormalForm, Pow10;
    PowStep(k);
    if k > 0 {
      PowStep(k - 1);
      TimesTen(c, Pow10(k - 1));
      NormalFormOfTen(c * Pow10(k - 1), e);
      NormalFormScales(c, e + 1, k - 1);
    }
  }

  lemma {:induction false} NormalFormFactor(d: Decimal)
    requires d.coefficient != 0
    ensures var n := NormalForm(d); n.exponent >= d.exponent && d.coefficient == n.coefficient * Pow10(n.exponent - d.exponent)
    decreases if d.coefficient < 0 then -d.coefficient else d.coefficient
  {
    if d.coefficient % 10 == 0 {
      var e := Decimal(d.coefficient / 10, d.exponent + 1);
      NormalFormFactor(e);
      var n := NormalForm(d);
      assert n.coefficient * Pow10(n.exponent - d.exponent) == 10 * (n.coefficient * Pow10(n.exponent - e.exponent));
    }
  }

  lemma PowPositive(n: nat)
    ensures Pow10(n) >= 1
  {
    if n > 0 { PowPositive(n - 1); }
  }

  /** Two decimals are the same rational exactly when they have one normal form. */
  lemma SameIffOneNormalForm(a: Decimal, b: Decimal)
    ensures SameNumber(a, b) <==> NormalForm(a) == NormalForm(b)
  {
    hide NormalForm, Pow10;
    var k := Min(a.exponent, b.exponent);
    NormalFormScales(a.coefficient, k, a.exponent - k);
    NormalFormScales(b.coefficient, k, b.exponent - k);
    if NormalForm(a) == NormalForm(b) {
      OneNormalFormIsSame(a, b);
    }
  }

  lemma OneNormalFormIsSame(a: Decimal, b: Decimal)
    requires NormalForm(a) == NormalForm(b)
    ensures SameNumber(a, b)
  {
    hide NormalForm, Pow10;
    var n := NormalForm(a);
    ZeroOnlyFromZero(a);
    ZeroOnlyFromZero(b);
    if n.coefficient != 0 {
      var k := Min(a.exponent, b.exponent);
      NormalFormFactor(a);
      NormalFormFactor(b);
      Rescale(n.coefficient, n.exponent - a.exponent, a.exponent - k);
      Rescale(n.coefficient, n.exponent - b.exponent, b.exponent - k);
    }
  }

  lemma Rescale(c: int, m: nat, n: nat)
    ensures c * Pow10(m) * Pow10(n) == c * Pow10(m + n)
  {
    PowAdd(m, n);
    assert c * Pow10(m) * Pow10(n) == c * (Pow10(m) * Pow10(n));
  }

  lemma ZeroOnlyFromZero(d: Decimal)
    ensures NormalForm(d).coefficient == 0 <==> d.coefficient == 0
  {
    if d.coefficient != 0 {
      NormalFormFactor(d);
    }
  }

  // ---- digit strings ----

  lemma {:induction false} ValueOfConcat(a: Text, b: Text)
    requires AllDigits(a) && AllDigits(b)
    ensures DigitsValue(a + b) == DigitsValue(a) * Pow10(|b|) + DigitsValue(b)
  {
    hide DigitsValue, Pow10;
    if b == [] {
      assert a + b == a;
      NoDigits();
      PowStep(0);
    } else {
      var b0 := b[..|b| - 1];
      ValueOfConcat(a, b0);
      DigitsUnfold(a + b);
      DigitsUnfold(b);
      assert (a + b)[..|a + b| - 1] == a + b0;
      ShiftOneDigit(DigitsValue(a), |b0|);
    }
  }

  lemma NoDigits()
    ensures DigitsValue([]) == 0
  {}

  lemma DigitsUnfold(s: Text)
    requires AllDigits(s) && s != []
    ensures DigitsValue(s) == DigitsValue(s[..|s| - 1]) * 10 + (s[|s| - 1] - 48)
  {}

  lemma ShiftOneDigit(a: nat, n: nat)
    ensures (a * Pow10(n)) * 10 == a * Pow10(n + 1)
  {
    hide Pow10;
    PowStep(n);
    TimesTen(a, Pow10(n));
  }

  lemma {:induction false} ValueOfZeros(n: nat)
    ensures DigitsValue(Zeros(n)) == 0
  {
    if n > 0 {
      ValueOfZeros(n - 1);
      assert Zeros(n)[..n - 1] == Zeros(n - 1);
    }
  }

  lemma {:induction false} ValueOfNatText(n: nat)
    ensures DigitsValue(NatText(n)) == n
  {
    if n >= 10 {
      ValueOfNatText(n / 10);
      assert NatText(n)[..|NatText(n)| - 1] == NatText(n / 10);
    } else {
      assert NatText(n)[..0] == [];
    }
  }

  /** A digit string without a leading zero is the decimal text of its value. */
  lemma {:induction false} NatTextOfValue(s: Text)
    requires AllDigits(s) && s != [] && s[0] != ZERO
    ensures DigitsValue(s) > 0 && NatText(DigitsValue(s)) == s
  {
    var s0 := s[..|s| - 1];
    if s0 == [] {
      assert DigitsValue(s0) == 0;
      assert s == [s[0]];
    } else {
      NatTextOfValue(s0);
      var n := DigitsValue(s);
      assert n / 10 == DigitsValue(s0) && n % 10 == s[|s| - 1] - 48;
      assert s == s0 + [s[|s| - 1]];
    }
  }

  function StripLeading(s: Text): (r: Text)
    requires AllDigits(s)
    ensures AllDigits(r) && (r != [] ==> r[0] != ZERO)
    ensures DigitsValue(r) == DigitsValue(s)
  {
    if s != [] && s[0] == ZERO then
      ValueOfConcat([ZERO], s[1..]);
      assert s == [ZERO] + s[1..];
      assert DigitsValue([ZERO]) == 0 by { assert [ZERO][..0] == []; }
      StripLeading(s[1..])
    else s
  }

  // ---- the canonical text ----

  const PLAIN_LIMIT := 10_000

  /** The notation chosen for non-zero digits ds * 10^e, neither end of ds being zero. */
  function Notation(ds: Text, e: int): Text
    requires ds != [] && AllDigits(ds)
  {
    var position := |ds| + e;
    if 0 <= e <= PLAIN_LIMIT then ds + Zeros(e)
    else if 0 < position < |ds| then ds[..position] + [POINT] + ds[position..]
    else if -PLAIN_LIMIT <= position <= 0 then [ZERO, POINT] + Zeros(-position) + ds
    else (if |ds| == 1 then ds else [ds[0], POINT] + ds[1..]) + [LOWER_E] + IntText(e + |ds| - 1)
  }

  function DecimalText(d: Decimal): Text {
    if d.coefficient == 0 then [ZERO]
    else if d.coefficient < 0 then [MINUS] + Notation(NatText(-d.coefficient), d.exponent)
    else Notation(NatText(d.coefficient), d.exponent)
  }

  lemma Tenfold(c: int, e: int)
    ensures NormalForm(Decimal(10 * c, e)) == NormalForm(Decimal(c, e + 1))
  {
    assert (10 * c) % 10 == 0 && (10 * c) / 10 == c;
  }

  /** Without a zero at either end, the digits are the whole coefficient of the normal form. */
  lemma StrippedIsNormal(negative: bool, digits: Text, e: int)
    requires AllDigits(digits) && digits != [] && digits[0] != ZERO && digits[|digits| - 1] != ZERO
    ensures DecimalText(NormalForm(Decimal(Signed(negative, DigitsValue(digits)), e)))
            == (if negative then [MINUS] else []) + Notation(digits, e)
  {
    hide NatText, DigitsValue, Notation;
    NatTextOfValue(digits);
    LastDigit(digits);
    SignedNormal(negative, DigitsValue(digits), e);
    assert [] + Notation(digits, e) == Notation(digits, e);
  }

  lemma SignedNormal(negative: bool, n: nat, e: int)
    requires n % 10 != 0
    ensures NormalForm(Decimal(Signed(negative, n), e)) == Decimal(Signed(negative, n), e)
  {}

  /** canonicalJSONNumber. */
  method CanonicalJSONNumber(t: Token) returns (r: Text)
    requires IsToken(t)
    ensures r == DecimalText(NormalForm(TokenValue(t)))
  {
    hide NormalForm, Notation, DecimalText, NatText, StripLeading;
    var digits := StripLeading(t.whole + t.fraction);
    if digits == [] {
      ZeroText(t.exponent - |t.fraction|);
      return [ZERO];
    }
    var exponent := t.exponent - |t.fraction|;
    ghost var value := DigitsValue(digits);
    NatTextOfValue(digits);
    while digits[|digits| - 1] == ZERO
      invariant digits != [] && AllDigits(digits) && digits[0] != ZERO
      invariant NormalForm(Decimal(DigitsValue(digits), exponent)) == NormalForm(Decimal(value, t.exponent - |t.fraction|))
      decreases |digits|
    {
      assert DigitsValue(digits) == 10 * DigitsValue(digits[..|digits| - 1]);
      Tenfold(DigitsValue(digits[..|digits| - 1]), exponent);
      digits, exponent := digits[..|digits| - 1], exponent + 1;
    }
    NegatedNormal(value, t.exponent - |t.fraction|);
    NegatedNormal(DigitsValue(digits), exponent);
    StrippedIsNormal(t.negative, digits, exponent);
    r := (if t.negative then [MINUS] else []) + Notation(digits, exponent);
  }

  lemma ZeroText(e: int)
    ensures DecimalText(NormalForm(Decimal(0, e))) == [ZERO]
  {}

  lemma LastDigit(s: Text)
    requires AllDigits(s) && s != []
    ensures DigitsValue(s) % 10 == s[|s| - 1] - 48
  {}

  lemma {:induction false} NegatedNormal(c: int, e: int)
    requires c >= 0
    ensures NormalForm(Decimal(-c, e)) == var n := NormalForm(Decimal(c, e)); Decimal(-n.coefficient, n.exponent)
    decreases c
  {
    assert (-c) % 10 == 0 <==> c % 10 == 0;
    if c != 0 && c % 10 == 0 {
      assert (-c) / 10 == -(c / 10);
      NegatedNormal(c / 10, e + 1);
    }
  }

  // ---- scanning a number at the head of a text ----

  datatype Scan = Scan(token: Token, rest: Text)

  function DigitCount(s: Text): (n: nat)
    ensures n <= |s| && AllDigits(s[..n]) && (n < |s| ==> !IsDigit(s[n]))
    ensures s != [] && IsDigit(s[0]) ==> n > 0
  {
    if s == [] || !IsDigit(s[0]) then 0
    else
      var n := 1 + DigitCount(s[1..]);
      assert s[..n] == [s[0]] + s[1..][..n - 1];
      n
  }

  lemma {:induction false} DigitCountOf(ds: Text, rest: Text)
    requires AllDigits(ds) && (rest != [] ==> !IsDigit(rest[0]))
    ensures DigitCount(ds + rest) == |ds| && (ds + rest)[..|ds|] == ds && (ds + rest)[|ds|..] == rest
  {
    if ds != [] {
      DigitCountOf(ds[1..], rest);
      assert (ds + rest)[1..] == ds[1..] + rest;
    }
  }

  function ScanWhole(s: Text): nat
    requires s != [] && IsDigit(s[0])
    ensures 0 < ScanWhole(s) <= |s|
  {
    if s[0] == ZERO then 1 else DigitCount(s)
  }

  function ScanFraction(s: Text): (n: nat)
    ensures n <= |s| && (n > 0 ==> n > 1 && AllDigits(s[1..n]))
  {
    if |s| >= 2 && s[0] == POINT && IsDigit(s[1]) then
      var n := DigitCount(s[1..]);
      assert s[1..][..n] == s[1..1 + n];
      1 + n
    else 0
  }

  /** How many units of an exponent part open the text, and what it says. */
  function ScanExponent(s: Text): (r: (nat, int))
    ensures r.0 <= |s|
  {
    if |s| < 2 || (s[0] != LOWER_E && s[0] != UPPER_E) then (0, 0)
    else
      var signed := s[1] == PLUS || s[1] == MINUS;
      var start := if signed then 2 else 1;
      if |s| == start || !IsDigit(s[start]) then (0, 0)
      else
        var n := DigitCount(s[start..]);
        var magnitude: int := DigitsValue(s[start..][..n]);
        (start + n, if s[1] == MINUS then -magnitude else magnitude)
  }

  function ScanAfterFraction(negative: bool, whole: Text, fraction: Text, tail: Text): Scan {
    var x := ScanExponent(tail);
    Scan(Token(negative, whole, fraction, x.1), tail[x.0..])
  }

  function ScanAfterWhole(negative: bool, whole: Text, tail: Text): Scan {
    var f := ScanFraction(tail);
    ScanAfterFraction(negative, whole, if f == 0 then [] else tail[1..f], tail[f..])
  }

  function ScanUnsigned(negative: bool, body: Text): (r: Option<Scan>)
    ensures r.Some? ==> IsToken(r.value.token) && |r.value.rest| < |body|
  {
    if body == [] || !IsDigit(body[0]) then None
    else
      var w := ScanWhole(body);
      Some(ScanAfterWhole(negative, body[..w], body[w..]))
  }

  /** The longest number token at the head of s: -?(0|[1-9][0-9]*)(.[0-9]+)?([eE][+-]?[0-9]+)? */
  function ScanNumber(s: Text): (r: Option<Scan>)
    ensures r.Some? ==> IsToken(r.value.token) && |r.value.rest| < |s|
  {
    if s != [] && s[0] == MINUS then ScanUnsigned(true, s[1..]) else ScanUnsigned(false, s)
  }

  /** The rest of a text cannot continue a number token. */
  predicate Stops(rest: Text) {
    rest != [] ==> !IsDigit(rest[0]) && rest[0] != POINT && rest[0] != LOWER_E && rest[0] != UPPER_E
  }

  /** The text of a token in the canonical printer's shape; `x` is its exponent part, if any. */
  function Written(whole: Text, fraction: Text, x: Option<int>): Text {
    whole + FractionPart(fraction) + ExponentPart(x)
  }

  function FractionPart(fraction: Text): Text {
    if fraction == [] then [] else [POINT] + fraction
  }

  function ExponentPart(x: Option<int>): Text {
    if x.None? then [] else [LOWER_E] + IntText(x.value)
  }

  lemma ScanExponentOf(x: int, rest: Text)
    requires Stops(rest)
    ensures ScanExponent([LOWER_E] + IntText(x) + rest) == (1 + |IntText(x)|, x)
  {
    hide NatText, DigitsValue, DigitCount;
    var s := [LOWER_E] + IntText(x) + rest;
    var magnitude := if x < 0 then -x else x;
    var start := if x < 0 then 2 else 1;
    var digits := NatText(magnitude);
    ValueOfNatText(magnitude);
    DigitCountOf(digits, rest);
    assert s[start..] == digits + rest;
    assert s[start] == digits[0];
    assert x >= 0 ==> s[1] == digits[0];
  }

  lemma ScanFractionOf(fraction: Text, rest: Text)
    requires AllDigits(fraction) && (Stops(rest) || (rest != [] && rest[0] == LOWER_E))
    ensures var part := FractionPart(fraction);
            ScanFraction(part + rest) == |part| && (part + rest)[|part|..] == rest
            && (fraction != [] ==> (part + rest)[1..|part|] == fraction)
  {
    hide DigitCount;
    if fraction != [] {
      DigitCountOf(fraction, rest);
      assert ([POINT] + fraction + rest)[1..] == fraction + rest;
    }
  }

  lemma ScanUnsignedOf(negative: bool, whole: Text, tail: Text)
    requires IsToken(Token(negative, whole, [], 0)) && (tail != [] ==> !IsDigit(tail[0]))
    ensures ScanUnsigned(negative, whole + tail) == Some(ScanAfterWhole(negative, whole, tail))
  {
    hide ScanAfterWhole, DigitCount;
    DigitCountOf(whole, tail);
    assert (whole + tail)[0] == whole[0];
  }

  lemma ScanAfterWholeOf(negative: bool, whole: Text, fraction: Text, rest: Text)
    requires AllDigits(fraction) && (Stops(rest) || (rest != [] && rest[0] == LOWER_E))
    ensures ScanAfterWhole(negative, whole, FractionPart(fraction) + rest) == ScanAfterFraction(negative, whole, fraction, rest)
  {
    hide ScanAfterFraction, ScanFraction;
    ScanFractionOf(fraction, rest);
  }

  lemma ScanAfterFractionOf(negative: bool, whole: Text, fraction: Text, x: Option<int>, rest: Text)
    requires Stops(rest)
    ensures ScanAfterFraction(negative, whole, fraction, ExponentPart(x) + rest)
            == Scan(Token(negative, whole, fraction, if x.Some? then x.value else 0), rest)
  {
    hide IntText, ScanExponent;
    if x.Some? {
      ScanExponentOf(x.value, rest);
      assert (ExponentPart(x) + rest)[|ExponentPart(x)|..] == rest;
    } else {
      assert ExponentPart(x) + rest == rest;
      NoExponent(rest);
    }
  }

  lemma TailStopsDigits(fraction: Text, x: Option<int>, rest: Text)
    requires Stops(rest)
    ensures var tail := FractionPart(fraction) + (ExponentPart(x) + rest); tail != [] ==> !IsDigit(tail[0])
  {
    hide IntText;
  }

  lemma ScanWritten(negative: bool, whole: Text, fraction: Text, x: Option<int>, rest: Text)
    requires IsToken(Token(negative, whole, fraction, 0)) && Stops(rest)
    ensures ScanNumber((if negative then [MINUS] else []) + Written(whole, fraction, x) + rest)
            == Some(Scan(Token(negative, whole, fraction, if x.Some? then x.value else 0), rest))
  {
    hide IntText, ScanUnsigned, ScanAfterWhole, ScanAfterFraction;
    var tail := FractionPart(fraction) + (ExponentPart(x) + rest);
    var s := (if negative then [MINUS] else []) + Written(whole, fraction, x) + rest;
    TailStopsDigits(fraction, x, rest);
    ScanUnsignedOf(negative, whole, tail);
    ScanAfterWholeOf(negative, whole, fraction, ExponentPart(x) + rest);
    ScanAfterFractionOf(negative, whole, fraction, x, rest);
    SplitsAfterSign(negative, whole, FractionPart(fraction), ExponentPart(x), rest);
  }

  lemma SplitsAfterSign(negative: bool, whole: Text, f: Text, x: Text, rest: Text)
    requires AllDigits(whole) && whole != []
    ensures var s := (if negative then [MINUS] else []) + (whole + f + x) + rest;
            s[0] == (if negative then MINUS else whole[0]) && s[if negative then 1 else 0..] == whole + (f + (x + rest))
  {
    assert (whole + f + x) + rest == whole + (f + (x + rest));
  }

  lemma NoExponent(rest: Text)
    requires Stops(rest)
    ensures ScanExponent(rest) == (0, 0)
  {}

  /** The token that a notation of the digits ds spells. */
  function NotationToken(negative: bool, ds: Text, e: int): Token
    requires ds != [] && AllDigits(ds)
  {
    var position := |ds| + e;
    if 0 <= e <= PLAIN_LIMIT then Token(negative, ds + Zeros(e), [], 0)
    else if 0 < position < |ds| then Token(negative, ds[..position], ds[position..], 0)
    else if -PLAIN_LIMIT <= position <= 0 then Token(negative, [ZERO], Zeros(-position) + ds, 0)
    else Token(negative, [ds[0]], ds[1..], e + |ds| - 1)
  }

  lemma ScientificIsWritten(ds: Text, x: Text)
    requires ds != []
    ensures (if |ds| == 1 then ds else [ds[0], POINT] + ds[1..]) + [LOWER_E] + x
            == [ds[0]] + FractionPart(ds[1..]) + ([LOWER_E] + x)
  {}

  predicate PlainNotation(ds: Text, e: int) {
    -PLAIN_LIMIT <= |ds| + e < |ds| || 0 <= e <= PLAIN_LIMIT
  }

  lemma NotationSpellsToken(negative: bool, ds: Text, e: int)
    requires ds != [] && AllDigits(ds) && ds[0] != ZERO
    ensures IsToken(NotationToken(negative, ds, e)) && NotationToken(negative, ds, e).negative == negative
  {}

  lemma SmallIsWritten(zeros: Text, ds: Text)
    requires ds != []
    ensures [ZERO, POINT] + zeros + ds == Written([ZERO], zeros + ds, None)
  {
    hide IntText;
    assert [ZERO, POINT] + zeros + ds == [ZERO] + ([POINT] + (zeros + ds));
  }

  lemma PlainIsWritten(negative: bool, ds: Text, e: int)
    requires ds != [] && AllDigits(ds) && ds[0] != ZERO && PlainNotation(ds, e)
    ensures var t := NotationToken(negative, ds, e); t.exponent == 0 && Notation(ds, e) == Written(t.whole, t.fraction, None)
  {
    hide Zeros, AllDigits, IntText;
    var position := |ds| + e;
    if 0 <= e <= PLAIN_LIMIT {
    } else if 0 < position < |ds| {
      assert ds[position..] != [];
    } else {
      hide Written;
      SmallIsWritten(Zeros(-position), ds);
    }
  }

  lemma NotationIsWritten(negative: bool, ds: Text, e: int) returns (x: Option<int>)
    requires ds != [] && AllDigits(ds) && ds[0] != ZERO
    ensures var t := NotationToken(negative, ds, e);
            Notation(ds, e) == Written(t.whole, t.fraction, x) && t.exponent == if x.Some? then x.value else 0
  {
    hide IntText;
    if PlainNotation(ds, e) {
      x := None;
      PlainIsWritten(negative, ds, e);
    } else {
      x := Some(e + |ds| - 1);
      ScientificIsWritten(ds, IntText(x.value));
    }
  }

  lemma NotationScans(negative: bool, ds: Text, e: int, rest: Text)
    requires ds != [] && AllDigits(ds) && ds[0] != ZERO && Stops(rest)
    ensures IsToken(NotationToken(negative, ds, e))
    ensures ScanNumber((if negative then [MINUS] else []) + Notation(ds, e) + rest) == Some(Scan(NotationToken(negative, ds, e), rest))
  {
    hide ScanNumber, Written, Notation, NotationToken;
    var x := NotationIsWritten(negative, ds, e);
    NotationSpellsToken(negative, ds, e);
    var t := NotationToken(negative, ds, e);
    ScanWritten(negative, t.whole, t.fraction, x, rest);
  }

  lemma PaddedValue(t: Token, zeros: nat, ds: Text)
    requires IsToken(t) && AllDigits(ds) && t.whole + t.fraction == Zeros(zeros) + ds
    ensures TokenValue(t) == Decimal(Signed(t.negative, DigitsValue(ds)), t.exponent - |t.fraction|)
  {
    hide DigitsValue, Pow10;
    ValueOfConcat(Zeros(zeros), ds);
    ValueOfZeros(zeros);
  }

  lemma ScaledValue(t: Token, ds: Text, e: nat)
    requires IsToken(t) && AllDigits(ds) && t.whole + t.fraction == ds + Zeros(e)
    ensures TokenValue(t) == Decimal(Signed(t.negative, DigitsValue(ds)) * Pow10(e), t.exponent - |t.fraction|)
  {
    hide DigitsValue, Pow10;
    ValueOfConcat(ds, Zeros(e));
    ValueOfZeros(e);
  }

  /** The digits of the token: ds with zeros behind, or with zeros in front. */
  lemma NotationDigits(negative: bool, ds: Text, e: int) returns (zeros: nat)
    requires ds != [] && AllDigits(ds)
    ensures var t := NotationToken(negative, ds, e);
            if 0 <= e <= PLAIN_LIMIT then zeros == e && t.whole + t.fraction == ds + Zeros(e) && t.exponent == |t.fraction|
            else t.whole + t.fraction == Zeros(zeros) + ds && t.exponent - |t.fraction| == e
  {
    zeros := if 0 <= e <= PLAIN_LIMIT then e else if -PLAIN_LIMIT <= |ds| + e <= 0 then 1 - (|ds| + e) else 0;
    var t := NotationToken(negative, ds, e);
    if 0 <= e <= PLAIN_LIMIT {
    } else if -PLAIN_LIMIT <= |ds| + e <= 0 {
      assert Zeros(zeros) == [ZERO] + Zeros(zeros - 1);
    } else {
      assert Zeros(zeros) == [];
    }
  }

  /** Whatever the notation, the token's digits spell ds and its scale is e, up to powers of ten. */
  lemma NotationValue(negative: bool, ds: Text, e: int)
    requires ds != [] && AllDigits(ds) && ds[0] != ZERO && IsToken(NotationToken(negative, ds, e))
    ensures NormalForm(TokenValue(NotationToken(negative, ds, e))) == NormalForm(Decimal(Signed(negative, DigitsValue(ds)), e))
  {
    hide NormalForm, DigitsValue, TokenValue, Pow10, Signed, Zeros, NotationToken, AllDigits;
    var t := NotationToken(negative, ds, e);
    NotationSpellsToken(negative, ds, e);
    var zeros := NotationDigits(negative, ds, e);
    if 0 <= e <= PLAIN_LIMIT {
      ScaledValue(t, ds, e);
      NormalFormScales(Signed(negative, DigitsValue(ds)), 0, e);
    } else {
      PaddedValue(t, zeros, ds);
    }
  }

  lemma ZeroScans(rest: Text) returns (t: Token)
    requires Stops(rest)
    ensures IsToken(t) && ScanNumber([ZERO] + rest) == Some(Scan(t, rest)) && NormalForm(TokenValue(t)) == Decimal(0, 0)
  {
    hide ScanNumber;
    t := Token(false, [ZERO], [], 0);
    ScanWritten(false, [ZERO], [], None, rest);
    assert [] + Written([ZERO], [], None) + rest == [ZERO] + rest;
    assert t.whole + t.fraction == Zeros(1);
    ValueOfZeros(1);
  }

  /** Reading back the canonical text of a normal decimal gives a token of the same number. */
  lemma DecimalTextScans(d: Decimal, rest: Text) returns (t: Token)
    requires IsNormal(d) && Stops(rest)
    ensures IsToken(t) && ScanNumber(DecimalText(d) + rest) == Some(Scan(t, rest)) && NormalForm(TokenValue(t)) == d
  {
    hide NatText, DigitsValue, Notation, ScanNumber, TokenValue, NotationToken, NormalForm, IsToken, Stops, Pow10, DecimalText;
    if d.coefficient == 0 {
      t := ZeroScans(rest);
      ZeroIsText(d);
    } else {
      var negative := d.coefficient < 0;
      var n := if negative then -d.coefficient else d.coefficient;
      var ds := NatText(n);
      ValueOfNatText(n);
      t := NotationToken(negative, ds, d.exponent);
      NotationScans(negative, ds, d.exponent, rest);
      NotationValue(negative, ds, d.exponent);
      SignAndNotation(d);
      NormalIsItself(d);
    }
  }

  lemma ZeroIsText(d: Decimal)
    requires IsNormal(d) && d.coefficient == 0
    ensures DecimalText(d) == [ZERO] && d == Decimal(0, 0)
  {}

  lemma SignAndNotation(d: Decimal)
    requires d.coefficient != 0
    ensures var n: nat := if d.coefficient < 0 then -d.coefficient else d.coefficient;
            DecimalText(d) == (if d.coefficient < 0 then [MINUS] else []) + Notation(NatText(n), d.exponent)
  {
    hide NatText, Notation;
    if d.coefficient > 0 {
      assert [] + Notation(NatText(d.coefficient), d.exponent) == Notation(NatText(d.coefficient), d.exponent);
    }
  }

  lemma NormalIsItself(d: Decimal)
    requires IsNormal(d)
    ensures NormalForm(d) == d
  {}

  /** What the canonicaliser computes for a token. */
  function Canonical(t: Token): Text
    requires IsToken(t)
  {
    DecimalText(NormalForm(TokenValue(t)))
  }

  /** The output is itself one whole number token, of the same rational value, and canonicalising it changes nothing. */
  lemma CanonicalIsTokenOfSameValue(t: Token) returns (u: Token)
    requires IsToken(t)
    ensures IsToken(u) && ScanNumber(Canonical(t)) == Some(Scan(u, []))
    ensures SameNumber(TokenValue(u), TokenValue(t))
    ensures Canonical(u) == Canonical(t)
  {
    var d := NormalForm(TokenValue(t));
    u := DecimalTextScans(d, []);
    assert DecimalText(d) + [] == DecimalText(d);
    SameIffOneNormalForm(TokenValue(u), TokenValue(t));
  }

  /** Two tokens have one canonical text exactly when they are the same rational number. */
  lemma CanonicalDecidesEquality(t: Token, u: Token)
    requires IsToken(t) && IsToken(u)
    ensures Canonical(t) == Canonical(u) <==> SameNumber(TokenValue(t), TokenValue(u))
  {
    SameIffOneNormalForm(TokenValue(t), TokenValue(u));
    var a := DecimalTextScans(NormalForm(TokenValue(t)), []);
    var b := DecimalTextScans(NormalForm(TokenValue(u)), []);
  }
}
