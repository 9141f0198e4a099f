/** The amount codec: `formatAmount` and `parseAmount`, and their Python twins. */
module Amounts {
  import opened Wrappers
  import opened Strings
  import opened BigInts

  const STELLAR_DECIMALS: nat := 7

  /** The range in which `10 ** decimals` is an exact double. */
  type Decimals = d: nat | d <= 22

  function TruncDiv(a: int, b: int): int
    requires b > 0
  {
    if a < 0 then -((-a) / b) else a / b
  }

  function FormatNumber(num: int, decimals: Decimals): string {
    var divisor := Pow10(decimals);
    var whole := TruncDiv(num, divisor);
    Join(whole, num - whole * divisor, decimals)
  }

  function Join(whole: int, fraction: int, decimals: Decimals): string {
    var fractionStr := StripTrailing(PadStart(ToString(fraction), decimals), '0');
    if fractionStr != "" then ToString(whole) + "." + fractionStr else ToString(whole)
  }

  /** `formatAmount`; None is an exception. */
  function FormatAmount(amount: string, decimals: Decimals): Option<string> {
    match Parse(amount)
    case None => None
    case Some(num) => Some(FormatNumber(num, decimals))
  }

  /** The first two parts of `amount.split('.')`, the second empty by default. */
  function SplitAtDot(amount: string): (string, string) {
    var i := IndexOf(amount, '.');
    if i >= |amount| then (amount, "")
    else
      var rest := amount[i + 1..];
      IndexOfIsFirst(rest, '.');
      IndexOfIsFirst(amount, '.');
      (amount[..i], rest[..IndexOf(rest, '.')])
  }

  function Weigh(whole: int, scale: int, fraction: int): int {
    whole * scale + fraction
  }

  lemma WeighNat(whole: nat, scale: nat, fraction: nat)
    ensures Weigh(whole, scale, fraction) >= 0
  {
  }

  function ParseNumber(amount: string, decimals: Decimals): Option<int> {
    var (whole, fraction) := SplitAtDot(amount);
    match (Parse(whole), Parse(PadEnd(fraction, decimals)))
    case (Some(w), Some(f)) => Some(Weigh(w, Pow10(decimals), f))
    case _ => None
  }

  /** `parseAmount`; None is an exception. */
  function ParseAmount(amount: string, decimals: Decimals): Option<string> {
    match ParseNumber(amount, decimals)
    case None => None
    case Some(num) => Some(ToString(num))
  }

  function UnitsToStroops(amount: string): Option<string> {
    ParseAmount(amount, STELLAR_DECIMALS)
  }

  function StroopsToUnits(amount: string): Option<string> {
    FormatAmount(amount, STELLAR_DECIMALS)
  }

  // ---------------------------------------------------------------------------------------
  // Digit strings with an optional fraction

  /** `whole` alone, or `whole.fraction`. */
  function Text(whole: string, fraction: string): string {
    if fraction == "" then whole else whole + "." + fraction
  }

  /** The canonical spelling of an amount: no redundant zero at either end. */
  function Canonical(whole: string, fraction: string): string {
    Text(NormalWhole(whole), StripTrailing(fraction, '0'))
  }

  function AmountOf(whole: string, fraction: string, decimals: Decimals): nat
    requires IsDigits(whole) && IsDigits(fraction)
  {
    RepeatChars('0', if |fraction| < decimals then decimals - |fraction| else 0);
    WeighNat(Value(whole), Pow10(decimals), Value(PadEnd(fraction, decimals)));
    Weigh(Value(whole), Pow10(decimals), Value(PadEnd(fraction, decimals)))
  }

  lemma PadEndDigits(f: string, d: nat)
    requires IsDigits(f)
    ensures IsDigits(PadEnd(f, d)) && (|f| <= d ==> |PadEnd(f, d)| == d)
  {
    if |f| < d {
      RepeatChars('0', d - |f|);
    }
  }

  lemma SplitText(whole: string, fraction: string)
    requires IsDigits(whole) && IsDigits(fraction)
    ensures SplitAtDot(Text(whole, fraction)) == (whole, fraction)
  {
    assert '.' !in whole && '.' !in fraction;
    IndexOfConcat(whole, '.', fraction);
    IndexOfConcat(fraction, '.', "");
    if fraction != "" {
      var s := Text(whole, fraction);
      assert s == whole + ['.'] + fraction;
      assert s[..|whole|] == whole && s[|whole| + 1..] == fraction;
      assert fraction[..|fraction|] == fraction;
    }
  }

  /** Parsing reads a digit string as the number it denotes. */
  lemma ParseText(whole: string, fraction: string, d: Decimals)
    requires IsDigits(whole) && IsDigits(fraction)
    ensures ParseNumber(Text(whole, fraction), d) == Some(AmountOf(whole, fraction, d))
  {
    SplitText(whole, fraction);
    PadEndDigits(fraction, d);
    ParseDigits(whole);
    ParseDigits(PadEnd(fraction, d));
  }

  lemma JoinText(w: nat, x: string, d: Decimals)
    requires IsDigits(x) && |x| == d
    ensures Join(w, Value(x), d) == Text(ToDec(w), StripTrailing(x, '0'))
  {
    if d == 0 {
      assert x == "";
      assert "0"[..0] == "";
      assert StripTrailing("0", '0') == StripTrailing("", '0');
    } else {
      PadValue(x);
    }
  }

  lemma Quotient(w: nat, f: nat, p: nat)
    requires f < p
    ensures TruncDiv(w * p + f, p) == w
    ensures (w * p + f) - TruncDiv(w * p + f, p) * p == f
  {
    MulMono(w, 0, p);
    DivModUnique(w, f, p);
  }

  /** Formatting a whole part and a padded fraction. */
  lemma FormatParts(n: int, w: nat, x: string, d: Decimals)
    requires IsDigits(x) && |x| == d
    requires n == Weigh(w, Pow10(d), Value(x))
    ensures FormatNumber(n, d) == Text(ToDec(w), StripTrailing(x, '0'))
  {
    var f := Value(x);
    JoinText(w, x, d);
    assert f < Pow10(d) by { ValueBound(x); }
    Quotient(w, f, Pow10(d));
    assert FormatNumber(n, d) == Join(w, f, d);
  }

  lemma PaddedFraction(n: nat, d: Decimals) returns (x: string)
    ensures IsDigits(x) && |x| == d
    ensures Value(x) == n % Pow10(d)
  {
    if d == 0 {
      x := "";
    } else {
      x := PadStart(ToDec(n % Pow10(d)), d);
      PadKeepsValue(n % Pow10(d), d);
    }
  }

  lemma StripDigits(x: string)
    requires IsDigits(x)
    ensures IsDigits(StripTrailing(x, '0')) && |StripTrailing(x, '0')| <= |x|
  {
    StripTrailingRun(x, '0');
  }

  lemma WeighDivMod(n: nat, p: nat)
    requires p > 0
    ensures n == Weigh(n / p, p, n % p) && 0 <= n / p
  {
    DivMod(n, p);
  }

  /** A number as its whole part and its `d` fraction digits. */
  lemma Digits(n: nat, d: Decimals) returns (w: nat, x: string)
    ensures IsDigits(x) && |x| == d
    ensures n == Weigh(w, Pow10(d), Value(x))
  {
    var p := Pow10(d);
    WeighDivMod(n, p);
    w := n / p;
    x := PaddedFraction(n, d);
    assert Value(x) == n % p;
  }

  /** Stripped fractions denote what they were stripped from. */
  lemma StrippedAmount(w: nat, x: string, d: Decimals)
    requires IsDigits(x) && |x| == d
    ensures IsDigits(StripTrailing(x, '0'))
    ensures AmountOf(ToDec(w), StripTrailing(x, '0'), d) == Weigh(w, Pow10(d), Value(x))
  {
    StripDigits(x);
    PadStripRoundTrip(x);
    ValueOfToDec(w);
  }

  /** Every amount survives formatting and parsing. */
  lemma FormatParseRoundTrip(n: nat, d: Decimals)
    ensures ParseNumber(FormatNumber(n, d), d) == Some(n)
  {
    var w, x := Digits(n, d);
    FormatParts(n, w, x, d);
    StrippedAmount(w, x, d);
    ParseText(ToDec(w), StripTrailing(x, '0'), d);
  }

  lemma SevenDecimals()
    ensures Pow10(7) == 10000000
  {
    assert Pow10(3) == 1000;
  }

  lemma AmountOfSeven(whole: string, fraction: string)
    requires IsDigits(whole) && IsDigits(fraction) && |fraction| == 7
    ensures AmountOf(whole, fraction, 7) == Weigh(Value(whole), 10000000, Value(fraction))
  {
    SevenDecimals();
    assert PadEnd(fraction, 7) == fraction;
  }

  lemma ParseSevenDecimals(whole: string, fraction: string)
    requires IsDigits(whole) && IsDigits(fraction) && |fraction| == 7
    ensures ParseNumber(Text(whole, fraction), 7) == Some(Weigh(Value(whole), 10000000, Value(fraction)))
  {
    AmountOfSeven(whole, fraction);
    ParseText(whole, fraction, 7);
  }

  lemma UnitsAreNumber(text: string)
    ensures ParseNumber(text, 7).Some? <==> UnitsToStroops(text).Some?
    ensures UnitsToStroops(text).Some? ==> Parse(UnitsToStroops(text).value) == ParseNumber(text, 7)
  {
    if ParseNumber(text, 7).Some? {
      ParseToString(ParseNumber(text, 7).value);
    }
  }

  /** One unit is ten million stroops: the whole part counts so many, and the seven digits behind
      the dot count the rest. */
  lemma UnitIsTenMillionStroops(whole: string, fraction: string)
    requires IsDigits(whole) && IsDigits(fraction) && |fraction| == 7
    ensures UnitsToStroops(Text(whole, fraction)).Some?
    ensures Parse(UnitsToStroops(Text(whole, fraction)).value)
            == Some(Weigh(Value(whole), 10000000, Value(fraction)))
  {
    ParseSevenDecimals(whole, fraction);
    UnitsAreNumber(Text(whole, fraction));
  }

  /** A part with a character that no number can contain makes the parser throw; the formatter
      throws exactly on what is no number. */
  lemma MalformedThrows(whole: string, fraction: string, c: char, d: Decimals)
    requires '.' !in whole && '.' !in fraction && (c in whole || c in fraction)
    requires !IsSpace(c) && RadixDigit(c) == 16 && c !in "+-xXoO"
    ensures ParseNumber(whole + "." + fraction, d) == None
    ensures FormatAmount(whole, d).Some? <==> Parse(whole).Some?
  {
    IndexOfConcat(whole, '.', fraction);
    IndexOfConcat(fraction, '.', "");
    var s := whole + "." + fraction;
    assert s == whole + ['.'] + fraction;
    assert s[..|whole|] == whole && s[|whole| + 1..] == fraction && fraction[..|fraction|] == fraction;
    if c in whole {
      ParseRefuses(whole, c);
    } else {
      assert PadEnd(fraction, d)[..|fraction|] == fraction;
      ParseRefuses(PadEnd(fraction, d), c);
    }
  }

  /** Everything behind a second dot is ignored. */
  lemma SecondDotIgnored(whole: string, fraction: string, rest: string)
    requires IsDigits(whole) && IsDigits(fraction)
    ensures SplitAtDot(whole + "." + fraction + "." + rest) == (whole, fraction)
  {
    var s := whole + "." + fraction + "." + rest;
    var behind := fraction + "." + rest;
    assert s == whole + ['.'] + behind && behind == fraction + ['.'] + rest;
    assert '.' !in whole && '.' !in fraction;
    IndexOfConcat(whole, '.', behind);
    IndexOfConcat(fraction, '.', rest);
    assert s[..|whole|] == whole && s[|whole| + 1..] == behind && behind[..|fraction|] == fraction;
  }

  /** The same round trip on the strings the functions exchange. */
  lemma AmountRoundTrip(n: nat, d: Decimals)
    ensures FormatAmount(ToString(n), d) == Some(FormatNumber(n, d))
    ensures ParseAmount(FormatNumber(n, d), d) == Some(ToString(n))
  {
    ParseToString(n);
    FormatParseRoundTrip(n, d);
  }

  /** Parsing and formatting a digit string gives its canonical spelling. */
  lemma ParseFormatIsCanonical(whole: string, fraction: string, d: Decimals)
    requires IsDigits(whole) && IsDigits(fraction) && |fraction| <= d
    ensures ParseNumber(Text(whole, fraction), d).Some?
    ensures FormatNumber(ParseNumber(Text(whole, fraction), d).value, d) == Canonical(whole, fraction)
  {
    ParseText(whole, fraction, d);
    PadEndDigits(fraction, d);
    FormatParts(AmountOf(whole, fraction, d), Value(whole), PadEnd(fraction, d), d);
    StripPadRoundTrip(fraction, d);
    ToDecOfValue(whole);
  }

  /** The canonical spelling denotes the same amount. */
  lemma CanonicalKeepsAmount(whole: string, fraction: string, d: Decimals)
    requires IsDigits(whole) && IsDigits(fraction) && |fraction| <= d
    ensures ParseNumber(Canonical(whole, fraction), d) == ParseNumber(Text(whole, fraction), d)
  {
    ParseFormatIsCanonical(whole, fraction, d);
    ParseText(whole, fraction, d);
    FormatParseRoundTrip(AmountOf(whole, fraction, d), d);
  }

  /** Two spellings denote the same amount exactly when they have the same canonical form; so
      trailing zeros do not matter, and a canonical form is its own. */
  lemma SameAmountSameText(w1: string, f1: string, w2: string, f2: string, d: Decimals)
    requires IsDigits(w1) && IsDigits(f1) && |f1| <= d
    requires IsDigits(w2) && IsDigits(f2) && |f2| <= d
    ensures ParseNumber(Text(w1, f1), d) == ParseNumber(Text(w2, f2), d)
            <==> Canonical(w1, f1) == Canonical(w2, f2)
  {
    ParseFormatIsCanonical(w1, f1, d);
    ParseFormatIsCanonical(w2, f2, d);
    CanonicalKeepsAmount(w1, f1, d);
    CanonicalKeepsAmount(w2, f2, d);
  }

  // ---------------------------------------------------------------------------------------
  // The Python twin

  /** Digits beyond the 28 of the default decimal context. */
  function Excess(n: nat): nat {
    if |ToDec(n)| <= 28 then 0 else |ToDec(n)| - 28
  }

  /** The multiple of `p` nearest to `n`, the even one of two equally near. */
  function RoundHalfEven(n: nat, p: nat): nat
    requires p > 0
  {
    var q, r := n / p, n % p;
    DivMod(n, p);
    WeighNat(q, p, 0);
    WeighNat(q, p, p);
    if 2 * r > p || (2 * r == p && q % 2 == 1) then Weigh(q, p, p) else Weigh(q, p, 0)
  }

  lemma RoundsToNearest(n: nat, p: nat)
    requires p > 0
    ensures var r := RoundHalfEven(n, p);
            && r % p == 0 && 0 <= 2 * (n - r) + p <= 2 * p
            && (2 * (n - r) == p || 2 * (r - n) == p ==> r / p % 2 == 0)
  {
    DivMod(n, p);
    var q, f := n / p, n % p;
    if 2 * f > p || (2 * f == p && q % 2 == 1) {
      assert RoundHalfEven(n, p) == (q + 1) * p + 0;
      DivModUnique(q + 1, 0, p);
    } else {
      assert RoundHalfEven(n, p) == q * p + 0;
      DivModUnique(q, 0, p);
    }
  }

  /** `Decimal(n) / ...` rounds the coefficient to 28 digits. */
  function RoundTo28(n: nat): nat {
    RoundHalfEven(n, Pow10(Excess(n)))
  }

  /** `format(units, ".<d>f")` of n / 10^d. */
  function FixedPoint(n: nat, d: Decimals): string {
    var p := Pow10(d);
    DivMod(n, p);
    var whole := ToDec(n / p);
    if d == 0 then whole else whole + "." + PadStart(ToDec(n % p), d)
  }

  function PyStroopsToUnits(n: nat, d: Decimals): string {
    PyTrim(FixedPoint(RoundTo28(n), d))
  }

  function PyTrim(text: string): string {
    var trimmed := if '.' in text then StripTrailing(StripTrailing(text, '0'), '.') else text;
    if trimmed == "" then "0" else trimmed
  }

  /** `partition` at the first dot: the fraction is everything behind it. */
  function Partition(amount: string): (string, string) {
    var i := IndexOf(amount, '.');
    if i >= |amount| then (amount, "") else (amount[..i], amount[i + 1..])
  }

  /** `int(text)` on the inputs below; None is the ValueError. */
  function PyInt(text: string): Option<int> {
    if text == "" then None else Parse(text)
  }

  function PyPad(fraction: string, d: Decimals): string {
    RepeatChars('0', d);
    (fraction + Repeat('0', d))[..d]
  }

  function PyUnitsToStroops(amount: string, d: Decimals): Option<int> {
    var (whole, fraction) := Partition(amount);
    PyCombine(whole, PyPad(fraction, d), Pow10(d))
  }

  function PyCombine(whole: string, padded: string, scale: int): Option<int> {
    match (PyInt(whole), PyInt(if padded == "" then "0" else padded))
    case (Some(w), Some(f)) => Some(Weigh(w, scale, f))
    case _ => None
  }

  lemma StripBehindDot(whole: string, x: string)
    requires IsDigits(whole) && whole != "" && IsDigits(x)
    ensures StripTrailing(StripTrailing(whole + "." + x, '0'), '.') == Text(whole, StripTrailing(x, '0'))
  {
    StripTrailingRun(x, '0');
    var t := StripTrailing(x, '0');
    var k := |x| - |t|;
    var head := whole + "." + t;
    assert whole + "." + x == head + Repeat('0', k);
    StripTrailingAfter(head, '0', k);
    StripDot(whole, t);
  }

  lemma StripDot(whole: string, t: string)
    requires IsDigits(whole) && whole != "" && IsDigits(t)
    ensures StripTrailing(whole + "." + t, '.') == Text(whole, t)
  {
    var head := whole + "." + t;
    if t == "" {
      assert head[..|head| - 1] == whole;
    } else {
      assert head[|head| - 1] == t[|t| - 1];
    }
  }

  lemma PyTrimText(whole: string, x: string)
    requires IsDigits(whole) && whole != "" && IsDigits(x)
    ensures PyTrim(whole + "." + x) == Text(whole, StripTrailing(x, '0'))
    ensures PyTrim(whole) == whole
  {
    assert (whole + "." + x)[|whole|] == '.';
    StripBehindDot(whole, x);
  }

  lemma FixedPointFormats(m: nat, d: Decimals)
    ensures PyTrim(FixedPoint(m, d)) == FormatNumber(m, d)
  {
    var w, x := Digits(m, d);
    FormatParts(m, w, x, d);
    PyTrimText(ToDec(w), x);
    FixedPointParts(m, d, w, x);
  }

  lemma FixedPointParts(m: nat, d: Decimals, w: nat, x: string)
    requires IsDigits(x) && |x| == d && m == Weigh(w, Pow10(d), Value(x))
    ensures FixedPoint(m, d) == if d == 0 then ToDec(w) else ToDec(w) + "." + x
  {
    assert Value(x) < Pow10(d) by { ValueBound(x); }
    QuotientNat(w, Value(x), Pow10(d));
    if d > 0 {
      PadValue(x);
    }
  }

  lemma QuotientNat(w: nat, f: nat, p: nat)
    requires f < p
    ensures Weigh(w, p, f) / p == w && Weigh(w, p, f) % p == f
  {
    DivModUnique(w, f, p);
  }

  lemma RoundingIsExactIff(n: nat, p: nat)
    requires p > 0
    ensures RoundHalfEven(n, p) == n <==> n % p == 0
  {
    DivMod(n, p);
  }

  /** The Python formatter is the TypeScript one on the amount rounded to its first 28 digits. */
  lemma PythonFormatsRounded(n: nat, d: Decimals)
    ensures PyStroopsToUnits(n, d) == FormatNumber(RoundHalfEven(n, Pow10(Excess(n))), d)
    ensures Excess(n) == if |ToDec(n)| <= 28 then 0 else |ToDec(n)| - 28
  {
    FixedPointFormats(RoundTo28(n), d);
  }

  /** The Python formatter agrees with the TypeScript one exactly when the amount has no
      non-zero digit beyond its first 28; below 10^28 always. */
  lemma PythonFormatsAlikeIff(n: nat, d: Decimals)
    ensures PyStroopsToUnits(n, d) == FormatNumber(n, d) <==> n % Pow10(Excess(n)) == 0
  {
    FixedPointFormats(RoundTo28(n), d);
    RoundingIsExactIff(n, Pow10(Excess(n)));
    FormatParseRoundTrip(n, d);
    FormatParseRoundTrip(RoundTo28(n), d);
  }

  lemma BelowLimitNoExcess(n: nat)
    requires n < Pow10(28)
    ensures Excess(n) == 0
  {
    ToDecLength(n, 28);
  }

  lemma OneExcessDigit(n: nat)
    requires Pow10(28) <= n < Pow10(29)
    ensures Excess(n) == 1
  {
    ToDecLonger(n, 28);
    ToDecLength(n, 29);
  }

  /** Any amount of 29 digits whose last one is not zero is formatted differently. */
  lemma LongAmountsFormatDifferently(n: nat, d: Decimals)
    requires Pow10(28) <= n < Pow10(29) && n % 10 != 0
    ensures PyStroopsToUnits(n, d) != FormatNumber(n, d)
  {
    OneExcessDigit(n);
    PythonFormatsAlikeIff(n, d);
    TenIsPow10(Excess(n));
  }

  lemma TenIsPow10(k: nat)
    requires k == 1
    ensures Pow10(k) == 10
  {
    assert Pow10(k - 1) == 1;
  }

  lemma PowersOfTen()
    ensures Pow10(28) == 1_0000_0000_0000_0000_0000_0000_0000 && Pow10(29) == 10 * Pow10(28)
  {
    assert Pow10(4) == 10000 && Pow10(8) == 1_0000_0000 && Pow10(12) == 1_0000_0000_0000;
    assert Pow10(16) == 1_0000_0000_0000_0000 && Pow10(20) == 1_0000_0000_0000_0000_0000;
    assert Pow10(24) == 1_0000_0000_0000_0000_0000_0000;
  }

  /** The smallest such amount. */
  lemma SmallestLongAmount(d: Decimals)
    ensures var n := 1_0000_0000_0000_0000_0000_0000_0001;
            PyStroopsToUnits(n, d) != FormatNumber(n, d)
  {
    PowersOfTen();
    LongAmountsFormatDifferently(1_0000_0000_0000_0000_0000_0000_0001, d);
  }

  lemma ValueOfPrefix(f: string, d: nat)
    requires IsDigits(f) && d < |f|
    ensures IsDigits(f[..d]) && (Value(f) == Value(f[..d]) <==> Value(f) == 0)
  {
    var a, b := f[..d], f[d..];
    assert f == a + b;
    ValueConcat(a, b);
    assert Pow10(|b|) == 10 * Pow10(|b| - 1);
    MulMono(Value(a), 10, Pow10(|b|));
  }

  /** What Python reads: the whole part, and the fraction cut or padded to `d` digits. */
  lemma PyParseText(whole: string, fraction: string, d: Decimals)
    requires IsDigits(whole) && IsDigits(fraction)
    ensures IsDigits(PyPad(fraction, d))
    ensures PyUnitsToStroops(Text(whole, fraction), d) ==
            PyAmountOf(whole, PyPad(fraction, d), Pow10(d))
  {
    PyPadDigits(fraction, d);
    PartitionText(whole, fraction);
    PyCombineDigits(whole, PyPad(fraction, d), Pow10(d));
  }

  function PyAmountOf(whole: string, padded: string, scale: int): Option<int>
    requires IsDigits(whole) && IsDigits(padded)
  {
    if whole == "" then None else Some(Weigh(Value(whole), scale, Value(padded)))
  }

  lemma PyCombineDigits(whole: string, padded: string, scale: int)
    requires IsDigits(whole) && IsDigits(padded)
    ensures PyCombine(whole, padded, scale) == PyAmountOf(whole, padded, scale)
  {
    ParseDigits(whole);
    PyIntPadded(padded);
  }

  lemma PyPadDigits(fraction: string, d: Decimals)
    requires IsDigits(fraction)
    ensures IsDigits(PyPad(fraction, d))
  {
    RepeatChars('0', d);
  }

  lemma PyIntPadded(padded: string)
    requires IsDigits(padded)
    ensures PyInt(if padded == "" then "0" else padded) == Some(Value(padded))
  {
    ParseDigits(padded);
    assert "0"[..0] == "";
    ParseDigits("0");
  }

  lemma ShortFractionsPadAlike(fraction: string, d: Decimals)
    requires |fraction| <= d
    ensures PyPad(fraction, d) == PadEnd(fraction, d)
  {
    var k := d - |fraction|;
    RepeatPrefix(d, k);
    assert (fraction + Repeat('0', d))[..d] == fraction + Repeat('0', d)[..k];
    assert fraction + Repeat('0', 0) == fraction;
  }

  lemma LongFractionsAreCut(fraction: string, d: Decimals)
    requires d < |fraction|
    ensures PyPad(fraction, d) == fraction[..d] && PadEnd(fraction, d) == fraction
  {
    RepeatChars('0', d);
  }

  /** Cutting and padding leave the value alone exactly when nothing but zeros is cut off. */
  lemma PadsAgreeIff(fraction: string, d: Decimals)
    requires IsDigits(fraction)
    ensures IsDigits(PyPad(fraction, d)) && IsDigits(PadEnd(fraction, d))
    ensures Value(PyPad(fraction, d)) == Value(PadEnd(fraction, d))
            <==> |fraction| <= d || Value(fraction) == 0
  {
    PadEndDigits(fraction, d);
    PyPadDigits(fraction, d);
    if |fraction| <= d {
      ShortFractionsPadAlike(fraction, d);
    } else {
      LongFractionsAreCut(fraction, d);
      ValueOfPrefix(fraction, d);
    }
  }

  /** On digit strings the two parsers agree exactly when the whole part is not empty and the
      fraction has at most `d` digits or only zeros: beyond that Python cuts the fraction off,
      while TypeScript reads all of it as stroops. */
  lemma ParsersAgreeIff(whole: string, fraction: string, d: Decimals)
    requires IsDigits(whole) && IsDigits(fraction)
    ensures PyUnitsToStroops(Text(whole, fraction), d) == ParseNumber(Text(whole, fraction), d)
            <==> whole != "" && (|fraction| <= d || Value(fraction) == 0)
  {
    ParseText(whole, fraction, d);
    PyParseText(whole, fraction, d);
    PadsAgreeIff(fraction, d);
    SameWeightIff(Value(whole), Pow10(d), Value(PyPad(fraction, d)), Value(PadEnd(fraction, d)));
  }

  /** One digit too many: Python cuts it off, TypeScript reads eight digits of stroops. */
  lemma LongFractionParsesDifferently()
    ensures PyUnitsToStroops("1.12345678", 7) != ParseNumber("1.12345678", 7)
  {
    assert Text("1", "12345678") == "1.12345678";
    ParsersAgreeIff("1", "12345678", 7);
  }

  /** No whole part: Python raises, TypeScript takes it for 0. */
  lemma EmptyWholeParsesDifferently()
    ensures PyUnitsToStroops(".5", 7) == None && ParseNumber(".5", 7).Some?
  {
    assert Text("", "5") == ".5";
    PyParseText("", "5", 7);
    ParseText("", "5", 7);
  }

  lemma SameWeightIff(w: int, scale: int, f: int, g: int)
    ensures Weigh(w, scale, f) == Weigh(w, scale, g) <==> f == g
  {
  }

  lemma RepeatPrefix(n: nat, k: nat)
    requires k <= n
    ensures |Repeat('0', n)| == n && |Repeat('0', k)| == k && Repeat('0', n)[..k] == Repeat('0', k)
  {
    RepeatChars('0', n);
    RepeatChars('0', k);
  }

  lemma PartitionText(whole: string, fraction: string)
    requires IsDigits(whole) && IsDigits(fraction)
    ensures Partition(Text(whole, fraction)) == (whole, fraction)
  {
    assert '.' !in whole;
    IndexOfConcat(whole, '.', fraction);
    if fraction != "" {
      var s := Text(whole, fraction);
      assert s == whole + ['.'] + fraction;
      assert s[..|whole|] == whole && s[|whole| + 1..] == fraction;
    }
  }
}
