/** `BigInt(text)` and `toString()`. */
module BigInts {
  import opened Wrappers
  import opened Strings

  predicate IsDigit(c: char) {
    '0' <= c <= '9'
  }

  predicate IsDigits(s: string) {
    forall i | 0 <= i < |s| :: IsDigit(s[i])
  }

  function Value(s: string): (v: nat)
    requires IsDigits(s)
  {
    if s == "" then 0 else 10 * Value(s[..|s| - 1]) + (s[|s| - 1] as int - '0' as int)
  }

  function DigitChar(d: nat): char
    requires d < 10
  {
    (d + '0' as int) as char
  }

  /** The decimal text of a natural number, without leading zeros. */
  function ToDec(n: nat): (s: string)
    ensures s != "" && IsDigits(s)
  {
    if n < 10 then [DigitChar(n)] else ToDec(n / 10) + [DigitChar(n % 10)]
  }

  function ToString(n: int): string {
    if n < 0 then "-" + ToDec(-n) else ToDec(n)
  }

  function RadixDigit(c: char): nat {
    if '0' <= c <= '9' then c as int - '0' as int
    else if 'a' <= c <= 'f' then c as int - 'a' as int + 10
    else if 'A' <= c <= 'F' then c as int - 'A' as int + 10
    else 16
  }

  function RadixValue(s: string, base: nat): Option<nat> {
    if s == "" then Some(0)
    else match RadixValue(s[..|s| - 1], base)
      case None => None
      case Some(v) =>
        if RadixDigit(s[|s| - 1]) < base then Some(v * base + RadixDigit(s[|s| - 1])) else None
  }

  function Decimal(s: string): Option<nat> {
    if s != "" && IsDigits(s) then Some(Value(s)) else None
  }

  function Negated(v: Option<int>): Option<int> {
    match v
    case None => None
    case Some(n) => Some(-n)
  }

  /** `BigInt(text)`; None is the SyntaxError. Blank text is 0; a radix prefix takes no sign. */
  function Parse(text: string): Option<int> {
    var s := Trim(text);
    if s == "" then Some(0)
    else if |s| > 2 && s[..2] in {"0x", "0X"} then RadixValue(s[2..], 16)
    else if |s| > 2 && s[..2] in {"0o", "0O"} then RadixValue(s[2..], 8)
    else if |s| > 2 && s[..2] in {"0b", "0B"} then RadixValue(s[2..], 2)
    else if s[0] == '-' then Negated(Decimal(s[1..]))
    else if s[0] == '+' then Decimal(s[1..])
    else Decimal(s)
  }

  /** On a plain digit string, and on the empty one, `BigInt` is the value of the digits. */
  lemma ParseDigits(s: string)
    requires IsDigits(s)
    ensures Parse(s) == Some(Value(s))
  {
    assert TrimStart(s) == s && TrimEnd(s) == s;
    if |s| > 2 {
      assert s[..2][1] == s[1];
    }
  }

  /** A sign in front of digits is read. */
  lemma ParseSigned(s: string)
    requires IsDigits(s) && s != ""
    ensures var v: int := Value(s); Parse("-" + s) == Some(-v) && Parse("+" + s) == Some(v)
  {
    ParseUntrimmed('-', s);
    ParseUntrimmed('+', s);
  }

  lemma ParseUntrimmed(sign: char, s: string)
    requires (sign == '-' || sign == '+') && IsDigits(s) && s != ""
    ensures var v: int := Value(s); Parse([sign] + s) == Some(if sign == '-' then -v else v)
  {
    var t := [sign] + s;
    assert IsDigit(s[|s| - 1]) && t[|t| - 1] == s[|s| - 1] && t[0] == sign;
    TrimMeans("", t, "");
    assert "" + t + "" == t && t[..2][0] == sign && t[1..] == s;
  }

  /** Blanks around a text do not matter, and a blank text is 0. */
  lemma ParseIgnoresBlanks(before: string, s: string, after: string)
    requires IsBlank(before) && IsBlank(after)
    requires s != "" ==> !IsSpace(s[0]) && !IsSpace(s[|s| - 1])
    ensures Parse(before + s + after) == Parse(s)
    ensures s == "" ==> Parse(s) == Some(0)
  {
    TrimMeans(before, s, after);
    TrimMeans("", s, "");
    assert "" + s + "" == s;
  }

  lemma RadixTwo(c: char, d: char, base: nat)
    requires RadixDigit(c) < base && RadixDigit(d) < base
    ensures RadixValue([c, d], base) == Some(RadixDigit(c) * base + RadixDigit(d))
  {
    assert [c, d][..1] == [c] && [c][..0] == "";
    assert RadixValue([c], base) == Some(RadixDigit(c));
  }

  lemma ParsePrefixed(x: char, c: char, d: char, base: nat)
    requires RadixDigit(c) < base && RadixDigit(d) < base && !IsSpace(d)
    requires base == if x == 'x' || x == 'X' then 16 else if x == 'o' || x == 'O' then 8 else 2
    requires x in "xXoObB"
    ensures Parse(['0', x, c, d]) == Some(RadixDigit(c) * base + RadixDigit(d))
  {
    var t := ['0', x, c, d];
    TrimMeans("", t, "");
    assert "" + t + "" == t && t[2..] == [c, d] && t[..2] == ['0', x];
    RadixTwo(c, d, base);
  }

  /** Radix prefixes are read in either case. */
  lemma ParseRadix()
    ensures Parse("0x1F") == Some(31) && Parse("0X1f") == Some(31)
    ensures Parse("0o17") == Some(15) && Parse("0b10") == Some(2)
  {
    ParsePrefixed('x', '1', 'F', 16);
    ParsePrefixed('X', '1', 'f', 16);
    ParsePrefixed('o', '1', '7', 8);
    ParsePrefixed('b', '1', '0', 2);
    assert "0x1F" == ['0', 'x', '1', 'F'] && "0X1f" == ['0', 'X', '1', 'f'];
    assert "0o17" == ['0', 'o', '1', '7'] && "0b10" == ['0', 'b', '1', '0'];
  }

  /** They take no sign. */
  lemma SignedRadixRefused(sign: char, s: string)
    requires (sign == '-' || sign == '+') && |s| >= 2 && s[1] == 'x' && !IsSpace(s[|s| - 1])
    ensures Parse([sign] + s) == None
  {
    var t := [sign] + s;
    TrimMeans("", t, "");
    assert "" + t + "" == t && t[..2][0] == sign && t[1..] == s;
    assert !IsDigit(s[1]);
  }

  lemma {:induction false} TrimKeeps(s: string, c: char)
    requires c in s && !IsSpace(c)
    ensures c in TrimStart(s) && c in TrimEnd(s)
    decreases |s|
  {
    if IsSpace(s[0]) {
      TrimKeeps(s[1..], c);
    }
    if IsSpace(s[|s| - 1]) {
      TrimKeeps(s[..|s| - 1], c);
    }
  }

  lemma {:induction false} RadixRefuses(s: string, c: char, base: nat)
    requires c in s && RadixDigit(c) == 16 && base <= 16
    ensures RadixValue(s, base) == None
    decreases |s|
  {
    if c in s[..|s| - 1] {
      RadixRefuses(s[..|s| - 1], c, base);
    } else {
      assert s[|s| - 1] == c;
    }
  }

  /** A text with any character that no number can contain, such as a dot, is refused. */
  lemma ParseRefuses(text: string, c: char)
    requires c in text && !IsSpace(c) && RadixDigit(c) == 16 && c !in "+-xXoO"
    ensures Parse(text) == None
  {
    TrimKeeps(text, c);
    TrimKeeps(TrimStart(text), c);
    var s := Trim(text);
    if |s| > 2 && s[..2] in {"0x", "0X", "0o", "0O", "0b", "0B"} {
      assert s == [s[0], s[1]] + s[2..];
      assert s[..2][0] == s[0] && s[..2][1] == s[1];
      assert c in s[2..];
      RadixRefuses(s[2..], c, 16);
      RadixRefuses(s[2..], c, 8);
      RadixRefuses(s[2..], c, 2);
    } else {
      assert s == [s[0]] + s[1..];
      assert !IsDigit(c);
    }
  }

  lemma {:induction false} ValueOfToDec(n: nat)
    ensures Value(ToDec(n)) == n
    decreases n
  {
    if n >= 10 {
      ValueOfToDec(n / 10);
      assert ToDec(n)[..|ToDec(n)| - 1] == ToDec(n / 10);
    } else {
      assert ToDec(n)[..0] == "";
    }
  }

  /** `BigInt(n.toString())` is n, for every integer. */
  lemma ParseToString(n: int)
    ensures Parse(ToString(n)) == Some(n)
  {
    if n >= 0 {
      ParseDigits(ToDec(n));
      ValueOfToDec(n);
    } else {
      ValueOfToDec(-n);
      var s := ToString(n);
      assert IsDigit(s[|s| - 1]) && s[0] == '-';
      assert TrimStart(s) == s && TrimEnd(s) == s;
      assert s[..2][0] == '-';
      assert s[1..] == ToDec(-n);
    }
  }

  /** Leading zeros removed, but never all digits. */
  function NormalWhole(s: string): string {
    if StripLeading(s, '0') == "" then "0" else StripLeading(s, '0')
  }

  lemma ToDecSnoc(v: nat, c: char)
    requires IsDigit(c)
    ensures ToDec(10 * v + (c as int - '0' as int)) == if v == 0 then [c] else ToDec(v) + [c]
  {
    var d := c as int - '0' as int;
    assert DigitChar(d) == c;
    assert (10 * v + d) / 10 == v && (10 * v + d) % 10 == d;
  }

  lemma {:induction false} ToDecOfValue(s: string)
    requires IsDigits(s)
    ensures ToDec(Value(s)) == NormalWhole(s)
    ensures StripLeading(s, '0') == "" <==> Value(s) == 0
    decreases |s|
  {
    if s != "" {
      var init, last := s[..|s| - 1], s[|s| - 1];
      ToDecOfValue(init);
      assert s == init + [last];
      StripLeadingConcat(init, last);
      ToDecSnoc(Value(init), last);
    }
  }

  lemma {:induction false} StripLeadingConcat(init: string, last: char)
    ensures StripLeading(init + [last], '0') ==
            if StripLeading(init, '0') != "" then StripLeading(init, '0') + [last]
            else if last == '0' then "" else [last]
    decreases |init|
  {
    if init == "" {
      assert init + [last] == [last];
    } else {
      assert (init + [last])[1..] == init[1..] + [last];
      StripLeadingConcat(init[1..], last);
    }
  }

  function Pow10(n: nat): (p: nat)
    ensures p >= 1
  {
    if n == 0 then 1 else 10 * Pow10(n - 1)
  }

  lemma {:induction false} ValueBound(s: string)
    requires IsDigits(s)
    ensures Value(s) < Pow10(|s|)
    decreases |s|
  {
    if s != "" {
      ValueBound(s[..|s| - 1]);
    }
  }

  lemma {:induction false} ToDecLength(n: nat, d: nat)
    requires n < Pow10(d) && d >= 1
    ensures |ToDec(n)| <= d
    decreases d
  {
    if n >= 10 {
      assert Pow10(1) == 10 * Pow10(0);
      ToDecLength(n / 10, d - 1);
    }
  }

  lemma {:induction false} ToDecLonger(n: nat, d: nat)
    requires Pow10(d) <= n
    ensures d < |ToDec(n)|
    decreases d
  {
    if d > 0 {
      ToDecLonger(n / 10, d - 1);
    }
  }

  lemma {:induction false} ValueOfZeros(n: nat)
    ensures IsDigits(Repeat('0', n)) && Value(Repeat('0', n)) == 0
    decreases n
  {
    if n > 0 {
      ValueOfZeros(n - 1);
      assert Repeat('0', n)[..n - 1] == Repeat('0', n - 1) by { RepeatChars('0', n - 1); }
    }
  }

  lemma {:induction false} ValueConcat(a: string, b: string)
    requires IsDigits(a) && IsDigits(b)
    ensures IsDigits(a + b) && Value(a + b) == Value(a) * Pow10(|b|) + Value(b)
    decreases |b|
  {
    if b == "" {
      assert a + b == a;
    } else {
      var init := b[..|b| - 1];
      assert (a + b)[..|a + b| - 1] == a + init;
      assert IsDigits(a + b);
      ValueConcat(a, init);
      assert Value(a + b) == 10 * (Value(a) * Pow10(|init|) + Value(init)) + (b[|b| - 1] as int - '0' as int);
      assert Value(a) * Pow10(|b|) == 10 * (Value(a) * Pow10(|init|)) by {
        MulAssoc(Value(a), Pow10(|init|));
      }
    }
  }

  lemma MulAssoc(x: int, y: int)
    ensures x * (10 * y) == 10 * (x * y)
  {
  }

  lemma MulMono(a: nat, x: int, y: int)
    requires x <= y
    ensures a * x <= a * y
  {
  }

  lemma DivMod(n: nat, p: nat)
    requires p > 0
    ensures n == (n / p) * p + n % p && 0 <= n / p && 0 <= n % p < p
  {
  }

  lemma DivModUnique(w: nat, f: nat, p: nat)
    requires f < p
    ensures (w * p + f) / p == w && (w * p + f) % p == f
  {
    var n := w * p + f;
    var q := n / p;
    DivMod(n, p);
    assert q * p + n % p == w * p + f;
    if q <= w - 1 {
      MulMono(p, q + 1, w);
    } else if w + 1 <= q {
      MulMono(p, w + 1, q);
    }
  }

  /** Left-padding the decimal text of a digit string's value gives the digit string back. */
  lemma PadValue(s: string)
    requires IsDigits(s) && s != ""
    ensures PadStart(ToDec(Value(s)), |s|) == s
  {
    ValueBound(s);
    ToDecLength(Value(s), |s|);
    var t := PadStart(ToDec(Value(s)), |s|);
    PadKeepsValue(Value(s), |s|);
    SameDigits(s, t);
  }

  lemma ZerosInFront(zeros: string, s: string)
    requires IsDigits(zeros) && IsDigits(s) && Value(zeros) == 0
    ensures IsDigits(zeros + s) && Value(zeros + s) == Value(s)
  {
    ValueConcat(zeros, s);
    ZeroTimes(Value(zeros), Pow10(|s|));
  }

  lemma ZeroTimes(x: int, y: int)
    requires x == 0
    ensures x * y == 0
  {
  }

  lemma PadKeepsValue(n: nat, d: nat)
    requires n < Pow10(d) && d >= 1
    ensures var t := PadStart(ToDec(n), d); |t| == d && IsDigits(t) && Value(t) == n
  {
    ToDecLength(n, d);
    ValueOfToDec(n);
    PadDigits(ToDec(n), d);
  }

  lemma PadDigits(s: string, d: nat)
    requires IsDigits(s) && |s| <= d
    ensures var t := PadStart(s, d); |t| == d && IsDigits(t) && Value(t) == Value(s)
  {
    var zeros := Repeat('0', d - |s|);
    RepeatChars('0', d - |s|);
    ValueOfZeros(d - |s|);
    ZerosInFront(zeros, s);
    assert PadStart(s, d) == zeros + s;
  }

  /** Digit strings of one length are determined by their value. */
  lemma {:induction false} SameDigits(a: string, b: string)
    requires IsDigits(a) && IsDigits(b) && |a| == |b| && Value(a) == Value(b)
    ensures a == b
    decreases |a|
  {
    if a != "" {
      var n := |a| - 1;
      SameDigits(a[..n], b[..n]);
      assert a == a[..n] + [a[n]] && b == b[..n] + [b[n]];
    }
  }
}
