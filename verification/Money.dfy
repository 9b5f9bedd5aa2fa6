/** Exact money: minor units as an unbounded integer, read from and printed to a major-unit decimal string. */
module Money {
  import opened Core

  datatype Parse = Parsed(minor: int) | Malformed | TooPrecise | BadScale

  /** The capture groups of the decimal pattern. */
  datatype Unsigned = Unsigned(whole: string, fraction: string)

  datatype Decimal = Decimal(negative: bool, digits: Unsigned)

  function Pow10(n: nat): (p: nat)
    ensures p > 0
  {
    if n == 0 then 1 else 10 * Pow10(n - 1)
  }

  // ----- digit strings -----

  predicate IsDigit(c: char) { '0' <= c <= '9' }

  predicate AllDigits(s: string) { forall i :: 0 <= i < |s| ==> IsDigit(s[i]) }

  function DigitOf(c: char): (n: nat)
    requires IsDigit(c)
    ensures n < 10
  {
    c as int - '0' as int
  }

  function CharOf(n: nat): (c: char)
    requires n < 10
    ensures IsDigit(c) && DigitOf(c) == n
  {
    ('0' as int + n) as char
  }

  /** `BigInt(text)` on a string of digits. */
  function Value(s: string): nat
    requires AllDigits(s)
  {
    if s == "" then 0 else 10 * Value(s[..|s| - 1]) + DigitOf(s[|s| - 1])
  }

  /** `BigInt.prototype.toString` on a magnitude. */
  function Text(n: nat): (s: string)
    ensures s != "" && AllDigits(s)
  {
    if n < 10 then [CharOf(n)] else Text(n / 10) + [CharOf(n % 10)]
  }

  function Zeros(n: nat): (s: string)
    ensures |s| == n && AllDigits(s)
  {
    if n == 0 then "" else Zeros(n - 1) + "0"
  }

  function PadEnd(s: string, width: nat): string {
    if |s| >= width then s else s + Zeros(width - |s|)
  }

  function PadStart(s: string, width: nat): string {
    if |s| >= width then s else Zeros(width - |s|) + s
  }

  lemma {:induction false} TextValue(n: nat)
    ensures Value(Text(n)) == n
  {
    if n >= 10 {
      TextValue(n / 10);
      assert Text(n)[..|Text(n)| - 1] == Text(n / 10);
    }
  }

  lemma {:induction false} TextLength(n: nat, width: nat)
    requires width > 0 && n < Pow10(width)
    ensures |Text(n)| <= width
  {
    if n >= 10 {
      TextLength(n / 10, width - 1);
    }
  }

  lemma {:induction false} ValueOfConcat(a: string, b: string)
    requires AllDigits(a) && AllDigits(b)
    ensures AllDigits(a + b) && Value(a + b) == Value(a) * Pow10(|b|) + Value(b)
  {
    hide Value;
    if b == "" {
      assert a + b == a;
      ValueOfNothing();
    } else {
      var init, last := b[..|b| - 1], b[|b| - 1];
      assert b == init + [last] && a + b == (a + init) + [last];
      ValueOfConcat(a, init);
      ValueOfSnoc(init, last);
      ValueOfSnoc(a + init, last);
      assert 10 * (Value(a) * Pow10(|init|)) == Value(a) * Pow10(|b|);
    }
  }

  lemma ValueOfNothing()
    ensures Value("") == 0
  {
  }

  lemma ValueOfSnoc(digits: string, last: char)
    requires AllDigits(digits) && IsDigit(last)
    ensures AllDigits(digits + [last]) && Value(digits + [last]) == 10 * Value(digits) + Value([last])
  {
    assert (digits + [last])[..|digits|] == digits && [last][..0] == "";
  }

  lemma {:induction false} ZerosValue(n: nat)
    ensures Value(Zeros(n)) == 0
  {
    if n > 0 {
      ZerosValue(n - 1);
      assert Zeros(n)[..n - 1] == Zeros(n - 1);
    }
  }

  lemma {:induction false} Pow10Sum(a: nat, b: nat)
    ensures Pow10(a + b) == Pow10(a) * Pow10(b)
  {
    if a > 0 {
      Pow10Sum(a - 1, b);
    }
  }

  // ----- the decimal grammar -----

  function Sign(negative: bool): string { if negative then "-" else "" }

  /** Digits, and optionally a point with more digits. */
  ghost predicate SpellsUnsigned(text: string, d: Unsigned) {
    && d.whole != "" && AllDigits(d.whole) && AllDigits(d.fraction)
    && text == if d.fraction == "" then d.whole else d.whole + "." + d.fraction
  }

  /** `text` is an optional minus before an unsigned decimal. */
  ghost predicate Spells(text: string, d: Decimal) {
    exists body :: text == Sign(d.negative) + body && SpellsUnsigned(body, d.digits)
  }

  /** The first point, or the end of the text. */
  function PointAt(text: string): (i: nat)
    ensures i <= |text|
    ensures forall k :: 0 <= k < i ==> text[k] != '.'
    ensures i < |text| ==> text[i] == '.'
  {
    if text == "" || text[0] == '.' then 0 else 1 + PointAt(text[1..])
  }

  /** The pattern match: an optional minus, then digits on both sides of the first point. */
  function MatchUnsigned(text: string): Option<Unsigned> {
    var i := PointAt(text);
    var whole := text[..i];
    var fraction := if i < |text| then text[i + 1..] else "";
    if whole != "" && AllDigits(whole) && AllDigits(fraction) && (i < |text| ==> fraction != "")
    then Some(Unsigned(whole, fraction)) else None
  }

  function MatchDecimal(text: string): Option<Decimal> {
    var negative := text != "" && text[0] == '-';
    match MatchUnsigned(if negative then text[1..] else text)
    case None => None
    case Some(d) => Some(Decimal(negative, d))
  }

  lemma UnsignedMatchSpells(text: string)
    requires MatchUnsigned(text).Some?
    ensures SpellsUnsigned(text, MatchUnsigned(text).value)
  {
    var i := PointAt(text);
    if i < |text| {
      assert text == text[..i] + "." + text[i + 1..];
    } else {
      assert text == text[..i];
    }
  }

  lemma UnsignedSpellingMatches(text: string, d: Unsigned)
    requires SpellsUnsigned(text, d)
    ensures MatchUnsigned(text) == Some(d)
    ensures text[0] != '-'
  {
    var n := |d.whole|;
    assert forall k :: 0 <= k < n ==> text[k] == d.whole[k] && IsDigit(text[k]);
    assert n < |text| ==> text[n] == '.';
    assert PointAt(text) == n;
    assert text[..n] == d.whole;
    assert n < |text| ==> text[n + 1..] == d.fraction;
  }

  /** The match finds exactly the spellings of the grammar, and so at most one. */
  lemma MatchesTheGrammar(text: string, d: Decimal)
    ensures MatchDecimal(text) == Some(d) <==> Spells(text, d)
  {
    var negative := text != "" && text[0] == '-';
    var body := if negative then text[1..] else text;
    assert text == Sign(negative) + body;
    if MatchUnsigned(body).Some? {
      UnsignedMatchSpells(body);
    }
    if Spells(text, d) {
      var inner :| text == Sign(d.negative) + inner && SpellsUnsigned(inner, d.digits);
      UnsignedSpellingMatches(inner, d.digits);
      assert text[|Sign(d.negative)|..] == inner;
    }
  }

  /** The code points `String.prototype.trim` removes. */
  predicate IsSpace(c: char) {
    || '\U{0009}' <= c <= '\U{000D}'
    || c in {' ', '\U{00A0}', '\U{1680}', '\U{2028}', '\U{2029}', '\U{202F}', '\U{205F}', '\U{3000}', '\U{FEFF}'}
    || '\U{2000}' <= c <= '\U{200A}'
  }

  function TrimStart(s: string): string {
    if s != "" && IsSpace(s[0]) then TrimStart(s[1..]) else s
  }

  function TrimEnd(s: string): string {
    if s != "" && IsSpace(s[|s| - 1]) then TrimEnd(s[..|s| - 1]) else s
  }

  function Trim(s: string): string { TrimEnd(TrimStart(s)) }

  // ----- Money.fromMajorString and Money.toMajorString -----

  function FromMajorString(value: string, decimals: int): Parse {
    if decimals < 0 then BadScale
    else match MatchDecimal(Trim(value))
      case None => Malformed
      case Some(d) =>
        if |d.digits.fraction| > decimals then TooPrecise
        else Parsed(Signed(d.negative, ScaledValue(d.digits, decimals)))
  }

  function Signed(negative: bool, magnitude: int): int { if negative then -magnitude else magnitude }

  /** `BigInt(whole + fraction.padEnd(decimals, '0'))`; the pattern admits nothing but digits. */
  function ScaledValue(d: Unsigned, decimals: nat): nat {
    var text := d.whole + PadEnd(d.fraction, decimals);
    if AllDigits(text) then Value(text) else 0
  }

  function Magnitude(minor: int): (n: int)
    ensures n >= 0
  {
    if minor < 0 then -minor else minor
  }

  function WholePart(n: nat, unit: nat): (q: nat)
    requires unit > 0
    ensures q * unit <= n < (q + 1) * unit
  {
    assert n == n / unit * unit + n % unit;
    assert n / unit >= 0;
    n / unit
  }

  function Remainder(n: nat, unit: nat): (r: nat)
    requires unit > 0
    ensures n == WholePart(n, unit) * unit + r && r < unit
  {
    var q := WholePart(n, unit);
    assert q * unit <= n < q * unit + unit by {
      assert (q + 1) * unit == q * unit + unit;
    }
    n - q * unit
  }

  function ToMajorString(minor: int, decimals: nat): string {
    var magnitude, divisor := Magnitude(minor), Pow10(decimals);
    if decimals == 0 then Sign(minor < 0) + Text(magnitude)
    else Sign(minor < 0) + Text(WholePart(magnitude, divisor)) + "." + PadStart(Text(Remainder(magnitude, divisor)),
      decimals)
  }

  /** The digits of a decimal read as one number: whole x 10^|fraction| + fraction. */
  ghost function DigitsRead(d: Unsigned): nat
    requires AllDigits(d.whole) && AllDigits(d.fraction)
  {
    Value(d.whole) * Pow10(|d.fraction|) + Value(d.fraction)
  }

  /**
   What a spelling denotes, in minor units: sign x (whole + fraction / 10^|fraction|) x 10^decimals, with nothing to
   round.
   */
  ghost predicate Denotes(d: Decimal, decimals: nat, minor: int)
    requires AllDigits(d.digits.whole) && AllDigits(d.digits.fraction)
  {
    minor * Pow10(|d.digits.fraction|) == Signed(d.negative, DigitsRead(d.digits)) * Pow10(decimals)
  }

  lemma ScaledDigits(d: Unsigned, decimals: nat)
    requires AllDigits(d.whole) && AllDigits(d.fraction) && |d.fraction| <= decimals
    ensures ScaledValue(d, decimals) == DigitsRead(d) * Pow10(decimals - |d.fraction|)
  {
    hide Value, Pow10;
    var zeros := Zeros(decimals - |d.fraction|);
    var digits := d.whole + d.fraction;
    ValueOfConcat(d.whole, d.fraction);
    ValueOfConcat(digits, zeros);
    ZerosValue(|zeros|);
    PaddedDigits(d, decimals);
  }

  lemma PaddedDigits(d: Unsigned, decimals: nat)
    requires |d.fraction| <= decimals
    ensures d.whole + PadEnd(d.fraction, decimals) == (d.whole + d.fraction) + Zeros(decimals - |d.fraction|)
  {
  }

  lemma ExactScale(m: int, value: int, p: int, q: int)
    requires p > 0
    ensures m * p == value * (p * q) <==> m == value * q
  {
    assert value * (p * q) == (value * q) * p;
    if m * p == (value * q) * p {
      assert (m - value * q) * p == 0;
    }
  }

  lemma SignedProduct(negative: bool, a: int, b: int)
    ensures Signed(negative, a * b) == Signed(negative, a) * b
  {
  }

  lemma ParsedDenotes(d: Decimal, decimals: nat, minor: int)
    requires AllDigits(d.digits.whole) && AllDigits(d.digits.fraction) && |d.digits.fraction| <= decimals
    ensures Denotes(d, decimals, minor) <==> minor == Signed(d.negative, ScaledValue(d.digits, decimals))
  {
    var places := |d.digits.fraction|;
    var read, q := DigitsRead(d.digits), Pow10(decimals - places);
    Pow10Sum(places, decimals - places);
    ScaledDigits(d.digits, decimals);
    SignedProduct(d.negative, read, q);
    ExactScale(minor, Signed(d.negative, read), Pow10(places), q);
  }

  /**
   A string parses to `minor` exactly when it spells a decimal of at most `decimals` places whose value is `minor`:
   nothing is truncated.
   */
  lemma ParseIsExact(value: string, decimals: nat, minor: int)
    ensures FromMajorString(value, decimals) == Parsed(minor) <==>
            exists d :: Spells(Trim(value), d) && |d.digits.fraction| <= decimals && Denotes(d, decimals, minor)
  {
    var text := Trim(value);
    if MatchDecimal(text).Some? {
      var d := MatchDecimal(text).value;
      MatchesTheGrammar(text, d);
      if |d.digits.fraction| <= decimals {
        ParsedDenotes(d, decimals, minor);
      }
    }
    forall d: Decimal | Spells(text, d)
      ensures MatchDecimal(text) == Some(d)
    {
      MatchesTheGrammar(text, d);
    }
  }

  lemma NothingToTrim(s: string)
    requires s != "" && !IsSpace(s[0]) && !IsSpace(s[|s| - 1])
    ensures Trim(s) == s
  {
  }

  /** The capture groups of a printed amount. */
  function Printed(minor: int, decimals: nat): Decimal {
    var magnitude, divisor := Magnitude(minor), Pow10(decimals);
    Decimal(minor < 0, Unsigned(Text(WholePart(magnitude, divisor)),
                                if decimals == 0 then "" else PadStart(Text(Remainder(magnitude, divisor)), decimals)))
  }

  lemma PaddedValue(t: string, width: nat)
    requires AllDigits(t) && |t| <= width
    ensures var s := PadStart(t, width); |s| == width && AllDigits(s) && Value(s) == Value(t)
  {
    var zeros := Zeros(width - |t|);
    assert PadStart(t, width) == zeros + t;
    ZerosValue(width - |t|);
    ValueOfConcat(zeros, t);
    assert 0 * Pow10(|t|) == 0;
  }

  lemma PrintedFraction(n: nat, decimals: nat)
    requires decimals > 0 && n < Pow10(decimals)
    ensures var s := PadStart(Text(n), decimals); |s| == decimals && AllDigits(s) && Value(s) == n
  {
    var t := Text(n);
    TextLength(n, decimals);
    TextValue(n);
    PaddedValue(t, decimals);
  }

  /** A printed amount spells a decimal with exactly `decimals` places. */
  lemma PrintSpells(minor: int, decimals: nat)
    ensures Spells(ToMajorString(minor, decimals), Printed(minor, decimals))
    ensures |Printed(minor, decimals).digits.fraction| == decimals
  {
    var d, text := Printed(minor, decimals), ToMajorString(minor, decimals);
    var body := if decimals == 0 then d.digits.whole else d.digits.whole + "." + d.digits.fraction;
    if decimals == 0 {
      assert WholePart(Magnitude(minor), 1) == Magnitude(minor);
    } else {
      PrintedFraction(Remainder(Magnitude(minor), Pow10(decimals)), decimals);
    }
    assert text == Sign(d.negative) + body;
  }

  lemma SpellingsAreTrimmed(text: string, d: Decimal)
    requires Spells(text, d)
    ensures Trim(text) == text
  {
    var body :| text == Sign(d.negative) + body && SpellsUnsigned(body, d.digits);
    assert text[0] == if d.negative then '-' else body[0];
    assert text[|text| - 1] == body[|body| - 1];
    assert body[0] == d.digits.whole[0];
    assert body[|body| - 1] == if d.digits.fraction == "" then d.digits.whole[|d.digits.whole| - 1]
      else d.digits.fraction[|d.digits.fraction| - 1];
    NothingToTrim(text);
  }

  lemma PrintedDigits(minor: int, decimals: nat)
    ensures var d := Printed(minor, decimals).digits;
            AllDigits(d.whole) && AllDigits(d.fraction) && |d.fraction| == decimals && DigitsRead(d) == Magnitude(minor)
  {
    var n, unit := Magnitude(minor), Pow10(decimals);
    TextValue(WholePart(n, unit));
    if decimals > 0 {
      PrintedFraction(Remainder(n, unit), decimals);
    } else {
      assert WholePart(n, 1) == n;
    }
  }

  lemma PrintedValue(minor: int, decimals: nat)
    ensures ScaledValue(Printed(minor, decimals).digits, decimals) == Magnitude(minor)
  {
    PrintedDigits(minor, decimals);
    ScaledDigits(Printed(minor, decimals).digits, decimals);
  }

  /** Printing and parsing at one scale are inverse, for every amount and every scale. */
  lemma RoundTrip(minor: int, decimals: nat)
    ensures FromMajorString(ToMajorString(minor, decimals), decimals) == Parsed(minor)
  {
    var d, text := Printed(minor, decimals), ToMajorString(minor, decimals);
    PrintSpells(minor, decimals);
    SpellingsAreTrimmed(text, d);
    MatchesTheGrammar(text, d);
    PrintedValue(minor, decimals);
  }

  // ----- Money.divFloor -----

  /** `/` and `%` on BigInt: truncated toward zero. */
  function TruncatedQuotient(a: int, b: int): int
    requires b != 0
  {
    if a >= 0 then a / b else -(-a / b)
  }

  function TruncatedRemainder(a: int, b: int): int
    requires b != 0
  {
    a - b * TruncatedQuotient(a, b)
  }

  function DivFloor(minor: int, divisor: int): Option<int> {
    if divisor == 0 then None
    else
      var quotient := TruncatedQuotient(minor, divisor);
      var remainder := TruncatedRemainder(minor, divisor);
      if remainder != 0 && (remainder < 0) != (divisor < 0) then Some(quotient - 1) else Some(quotient)
  }

  /** `q` is the floor of a / b: the greatest integer not above the exact quotient. */
  ghost predicate IsFloor(a: int, b: int, q: int)
    requires b != 0
  {
    if b > 0 then q * b <= a < (q + 1) * b else (q + 1) * b < a <= q * b
  }

  lemma TruncationBounds(a: int, b: int)
    requires b != 0
    ensures var r := TruncatedRemainder(a, b);
            && a == b * TruncatedQuotient(a, b) + r
            && (a >= 0 ==> 0 <= r < Magnitude(b))
            && (a <= 0 ==> -Magnitude(b) < r <= 0)
  {
    var n := if a >= 0 then a else -a;
    assert n == b * (n / b) + n % b;
    assert a < 0 ==> b * -(n / b) == -(b * (n / b));
  }

  /** The correction makes truncating division a floor for every combination of signs. */
  lemma DivFloorIsFloor(minor: int, divisor: int, q: int)
    requires divisor != 0
    ensures DivFloor(minor, divisor) == Some(q) <==> IsFloor(minor, divisor, q)
  {
    TruncationBounds(minor, divisor);
    var floor := DivFloor(minor, divisor).value;
    var quotient := TruncatedQuotient(minor, divisor);
    assert (quotient - 1) * divisor == divisor * quotient - divisor &&
      (quotient + 1) * divisor == divisor * quotient + divisor;
    assert IsFloor(minor, divisor, floor);
    if IsFloor(minor, divisor, q) {
      FloorIsUnique(minor, divisor, floor, q);
    }
  }

  lemma FloorIsUnique(a: int, b: int, p: int, q: int)
    requires b != 0 && IsFloor(a, b, p) && IsFloor(a, b, q)
    ensures p == q
  {
  }
}
