/** The JavaScript string operations the amount, quote and stream code is written with. */
module Strings {

  /** White space and line terminators, as `trim` and `BigInt` skip them. */
  predicate IsSpace(c: char) {
    var u := c as int;
    || 0x09 <= u <= 0x0D || u == 0x20 || u == 0xA0 || u == 0x1680 || 0x2000 <= u <= 0x200A
    || u == 0x2028 || u == 0x2029 || u == 0x202F || u == 0x205F || u == 0x3000 || u == 0xFEFF
  }

  function TrimStart(s: string): string {
    if s != "" && IsSpace(s[0]) then TrimStart(s[1..]) else s
  }

  function TrimEnd(s: string): string {
    if s != "" && IsSpace(s[|s| - 1]) then TrimEnd(s[..|s| - 1]) else s
  }

  function Trim(s: string): string {
    TrimEnd(TrimStart(s))
  }

  predicate IsBlank(s: string) {
    forall i | 0 <= i < |s| :: IsSpace(s[i])
  }

  lemma {:induction false} TrimStartBlank(blank: string, s: string)
    requires IsBlank(blank) && (s == "" || !IsSpace(s[0]))
    ensures TrimStart(blank + s) == s
    decreases |blank|
  {
    if blank == "" {
      assert blank + s == s;
    } else {
      assert (blank + s)[1..] == blank[1..] + s;
      TrimStartBlank(blank[1..], s);
    }
  }

  lemma {:induction false} TrimEndBlank(s: string, blank: string)
    requires IsBlank(blank) && (s == "" || !IsSpace(s[|s| - 1]))
    ensures TrimEnd(s + blank) == s
    decreases |blank|
  {
    if blank == "" {
      assert s + blank == s;
    } else {
      var init := blank[..|blank| - 1];
      assert (s + blank)[..|s + blank| - 1] == s + init;
      TrimEndBlank(s, init);
    }
  }

  /** Trimming takes the blanks at both ends and nothing else. */
  lemma TrimMeans(before: string, s: string, after: string)
    requires IsBlank(before) && IsBlank(after)
    requires s != "" ==> !IsSpace(s[0]) && !IsSpace(s[|s| - 1])
    ensures Trim(before + s + after) == s
  {
    if s == "" {
      assert before + s + after == (before + after) + "";
      TrimStartBlank(before + after, "");
      assert TrimStart("") == "";
    } else {
      assert before + s + after == before + (s + after);
      TrimStartBlank(before, s + after);
      TrimEndBlank(s, after);
    }
  }

  function Repeat(c: char, n: nat): string {
    if n == 0 then "" else Repeat(c, n - 1) + [c]
  }

  function PadStart(s: string, n: nat): string {
    if n <= |s| then s else Repeat('0', n - |s|) + s
  }

  function PadEnd(s: string, n: nat): string {
    if n <= |s| then s else s + Repeat('0', n - |s|)
  }

  function StripTrailing(s: string, c: char): string {
    if s != "" && s[|s| - 1] == c then StripTrailing(s[..|s| - 1], c) else s
  }

  function StripLeading(s: string, c: char): string {
    if s != "" && s[0] == c then StripLeading(s[1..], c) else s
  }

  /** The position of the first `c`, or the length. */
  function IndexOf(s: string, c: char): nat {
    if s == "" || s[0] == c then 0 else 1 + IndexOf(s[1..], c)
  }

  lemma {:induction false} IndexOfIsFirst(s: string, c: char)
    ensures var i := IndexOf(s, c);
            && i <= |s| && (i < |s| ==> s[i] == c) && forall j | 0 <= j < i :: s[j] != c
    decreases |s|
  {
    if s != "" && s[0] != c {
      IndexOfIsFirst(s[1..], c);
      forall j | 0 <= j < IndexOf(s, c) ensures s[j] != c {
        assert j > 0 ==> s[j] == s[1..][j - 1];
      }
    }
  }

  lemma IndexOfConcat(a: string, c: char, b: string)
    requires c !in a
    ensures IndexOf(a + [c] + b, c) == |a|
    ensures IndexOf(a, c) == |a|
  {
    var s := a + [c] + b;
    IndexOfIsFirst(s, c);
    IndexOfIsFirst(a, c);
    assert s[|a|] == c;
    assert forall j | 0 <= j < |a| :: s[j] == a[j];
  }

  lemma {:induction false} RepeatChars(c: char, n: nat)
    ensures |Repeat(c, n)| == n && forall i | 0 <= i < n :: Repeat(c, n)[i] == c
    decreases n
  {
    if n > 0 {
      RepeatChars(c, n - 1);
    }
  }

  /** Stripping removes a run of `c` and nothing else. */
  lemma {:induction false} StripTrailingRun(s: string, c: char)
    ensures var t := StripTrailing(s, c);
            && t <= s
            && (t != "" ==> t[|t| - 1] != c)
            && s == t + Repeat(c, |s| - |t|)
    decreases |s|
  {
    if s != "" && s[|s| - 1] == c {
      StripTrailingRun(s[..|s| - 1], c);
      var t := StripTrailing(s[..|s| - 1], c);
      assert s == s[..|s| - 1] + [c];
      assert Repeat(c, |s| - |t|) == Repeat(c, |s| - 1 - |t|) + [c];
    } else {
      assert s + Repeat(c, 0) == s;
    }
  }

  lemma {:induction false} StripTrailingAfter(t: string, c: char, n: nat)
    requires t == "" || t[|t| - 1] != c
    ensures StripTrailing(t + Repeat(c, n), c) == t
    decreases n
  {
    RepeatChars(c, n);
    if n == 0 {
      assert t + Repeat(c, 0) == t;
    } else {
      assert (t + Repeat(c, n))[..|t| + n - 1] == t + Repeat(c, n - 1);
      StripTrailingAfter(t, c, n - 1);
    }
  }

  /** Trailing zeros do not survive, and padding brings back what stripping took away. */
  lemma PadStripRoundTrip(s: string)
    ensures PadEnd(StripTrailing(s, '0'), |s|) == s
  {
    StripTrailingRun(s, '0');
    var t := StripTrailing(s, '0');
    if |t| == |s| {
      assert s == t + Repeat('0', 0);
    }
  }

  lemma RepeatConcat(c: char, m: nat, n: nat)
    ensures Repeat(c, m) + Repeat(c, n) == Repeat(c, m + n)
  {
    RepeatChars(c, m);
    RepeatChars(c, n);
    RepeatChars(c, m + n);
  }

  lemma StripPadRoundTrip(s: string, n: nat)
    ensures StripTrailing(PadEnd(s, n), '0') == StripTrailing(s, '0')
  {
    if |s| < n {
      StripTrailingRun(s, '0');
      var t := StripTrailing(s, '0');
      var j, k := |s| - |t|, n - |s|;
      RepeatConcat('0', j, k);
      assert PadEnd(s, n) == t + (Repeat('0', j) + Repeat('0', k));
      StripTrailingAfter(t, '0', j + k);
    }
  }
}
