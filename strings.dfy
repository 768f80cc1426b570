/** Text primitives the dashboard relies on: Python's decimal `repr` of an
    integer, `str.ljust`/`str.rjust`, `str.replace`, the `"{:,}"` thousands
    format and two-digit hexadecimal. Strings are sequences of characters. */
module Strings {

  /** The character of a decimal digit. */
  function DigitChar(d: int): (c: char)
    requires 0 <= d < 10
    ensures '0' <= c <= '9' && c as int - '0' as int == d
  {
    (d + '0' as int) as char
  }

  predicate IsDigits(s: string) {
    forall i :: 0 <= i < |s| ==> '0' <= s[i] <= '9'
  }

  /** The value of a string of decimal digits, most significant first. */
  function DigitsValue(s: string): nat
    requires IsDigits(s)
  {
    if s == [] then 0
    else DigitsValue(s[..|s| - 1]) * 10 + (s[|s| - 1] as int - '0' as int)
  }

  /** Decimal numeral of a natural number: Python's `repr` of a non-negative int. */
  function NatText(n: nat): (s: string)
    ensures 1 <= |s| && IsDigits(s)
    ensures |s| > 1 ==> s[0] != '0'
    ensures n < 10 <==> |s| == 1
  {
    if n < 10 then [DigitChar(n)] else NatText(n / 10) + [DigitChar(n % 10)]
  }

  lemma {:induction false} NatTextValue(n: nat)
    ensures DigitsValue(NatText(n)) == n
  {
    if n >= 10 {
      NatTextValue(n / 10);
      var s := NatText(n);
      assert s[..|s| - 1] == NatText(n / 10);
    }
  }

  /** Numbers below 1000 take at most three digits; the width bounds used by
      the fixed-width columns of the dashboard rest on this. */
  lemma {:induction false} NatTextShort(n: nat)
    requires n < 1000
    ensures |NatText(n)| <= 3
    ensures n >= 100 ==> |NatText(n)| == 3
  {
    if n >= 10 {
      NatTextShort(n / 10);
    }
  }

  /** Python's `repr` of an int (a `-` sign, then the digits). */
  function IntText(n: int): (s: string)
    ensures |s| >= 1
  {
    if n < 0 then "-" + NatText(-n) else NatText(n)
  }

  predicate IsIntText(s: string) {
    if |s| > 0 && s[0] == '-' then IsDigits(s[1..]) else IsDigits(s)
  }

  /** Python's `int()` of a decimal numeral. */
  function ParseInt(s: string): int
    requires IsIntText(s)
  {
    if |s| > 0 && s[0] == '-' then 0 - DigitsValue(s[1..]) else DigitsValue(s) as int
  }

  lemma IntTextRoundTrip(n: int)
    ensures IsIntText(IntText(n)) && ParseInt(IntText(n)) == n
  {
    if n < 0 {
      NatTextValue(-n);
      assert IntText(n)[1..] == NatText(-n);
    } else {
      NatTextValue(n);
    }
  }

  /** `IntText` is one-to-one: distinct numbers print differently. */
  lemma IntTextInjective(m: int, n: int)
    requires IntText(m) == IntText(n)
    ensures m == n
  {
    IntTextRoundTrip(m);
    IntTextRoundTrip(n);
  }

  function Spaces(n: int): (s: string)
    ensures |s| == (if n > 0 then n else 0)
    ensures forall i :: 0 <= i < |s| ==> s[i] == ' '
  {
    if n <= 0 then "" else Spaces(n - 1) + " "
  }

  /** Python's `s.ljust(w)`: pad on the right with spaces up to width `w`. */
  function LJust(s: string, w: int): (r: string)
    ensures |r| == (if |s| >= w then |s| else w)
    ensures r[..|s|] == s
    ensures forall i :: |s| <= i < |r| ==> r[i] == ' '
  {
    if |s| >= w then s else s + Spaces(w - |s|)
  }

  /** Python's `s.rjust(w)`: pad on the left with spaces up to width `w`. */
  function RJust(s: string, w: int): (r: string)
    ensures |r| == (if |s| >= w then |s| else w)
    ensures r[|r| - |s|..] == s
    ensures forall i :: 0 <= i < |r| - |s| ==> r[i] == ' '
  {
    if |s| >= w then s else Spaces(w - |s|) + s
  }

  /** Python's `s.replace(pat, rep)`: every non-overlapping occurrence of
      `pat`, scanning from the left, is replaced by `rep`. */
  function Replace(s: string, pat: string, rep: string): (r: string)
    requires |pat| > 0
    ensures forall c :: c in r ==> c in s || c in rep
    ensures |pat| == 1 && pat[0] !in rep ==> pat[0] !in r
    ensures |pat| == 1 && |rep| == 1 ==>
      |r| == |s| && forall i :: 0 <= i < |s| ==> r[i] == (if s[i] == pat[0] then rep[0] else s[i])
    ensures rep == [] ==> |r| <= |s|
    decreases |s|
  {
    if |s| < |pat| then s
    else if s[..|pat|] == pat then rep + Replace(s[|pat|..], pat, rep)
    else [s[0]] + Replace(s[1..], pat, rep)
  }

  /** `pat` occurs in `s` at position `k`. */
  predicate OccursAt(s: string, pat: string, k: int) {
    0 <= k <= |s| - |pat| && s[k..k + |pat|] == pat
  }

  /** A string without the pattern has none after its first character. */
  lemma NoMatchTail(s: string, pat: string)
    requires s != [] && forall k :: !OccursAt(s, pat, k)
    ensures forall k :: !OccursAt(s[1..], pat, k)
  {
    forall k ensures !OccursAt(s[1..], pat, k) {
      if 0 <= k <= |s[1..]| - |pat| {
        assert s[1..][k..k + |pat|] == s[k + 1..k + 1 + |pat|];
        assert !OccursAt(s, pat, k + 1);
      }
    }
  }

  /** With the pattern appended to a non-empty string without it, the
      pattern does not start at position 0: either it lies inside the
      string, or its first character would recur in it. */
  lemma NoMatchAtStart(a: string, pat: string)
    requires a != [] && |pat| > 0 && pat[0] !in pat[1..]
    requires forall k :: !OccursAt(a, pat, k)
    ensures (a + pat)[..|pat|] != pat
  {
    var s := a + pat;
    if |a| >= |pat| {
      assert !OccursAt(a, pat, 0);
      assert s[..|pat|] == a[..|pat|];
    } else {
      assert pat[1..][|a| - 1] == pat[|a|];
      assert s[..|pat|][|a|] == pat[0] != pat[|a|];
    }
  }

  /** A string in which the pattern does not occur comes back unchanged. */
  lemma {:induction false} ReplaceNoMatch(s: string, pat: string, rep: string)
    requires |pat| > 0
    requires forall k :: !OccursAt(s, pat, k)
    ensures Replace(s, pat, rep) == s
    decreases |s|
  {
    if |s| >= |pat| {
      assert !OccursAt(s, pat, 0);
      assert s[..|pat|] != pat;
      NoMatchTail(s, pat);
      ReplaceNoMatch(s[1..], pat, rep);
    }
  }

  /** A pattern whose first character does not recur in it, appended once
      to a string that does not contain it, is the only occurrence: it alone
      is replaced, as `name.replace(".gcode", "")` drops the extension. */
  lemma {:induction false} ReplaceSuffix(a: string, pat: string, rep: string)
    requires |pat| > 0 && pat[0] !in pat[1..]
    requires forall k :: !OccursAt(a, pat, k)
    ensures Replace(a + pat, pat, rep) == a + rep
    decreases |a|
  {
    var s := a + pat;
    if a == [] {
      assert s == pat && s[|pat|..] == [];
    } else {
      NoMatchAtStart(a, pat);
      NoMatchTail(a, pat);
      ReplaceSuffix(a[1..], pat, rep);
      assert s[1..] == a[1..] + pat;
      assert [a[0]] + (a[1..] + rep) == a + rep;
    }
  }

  /** Replacing a character that does not occur changes nothing. */
  lemma ReplaceCharAbsent(s: string, c: char, d: char)
    requires c !in s
    ensures Replace(s, [c], [d]) == s
  {
    var r := Replace(s, [c], [d]);
    forall i | 0 <= i < |s|
      ensures r[i] == s[i]
    {
      assert s[i] in s;
    }
  }

  /** Replacing one character by another works position by position, so
      it distributes over concatenation. */
  lemma ReplaceCharConcat(a: string, b: string, c: char, d: char)
    ensures Replace(a + b, [c], [d]) == Replace(a, [c], [d]) + Replace(b, [c], [d])
  {
    var r, ra, rb := Replace(a + b, [c], [d]), Replace(a, [c], [d]), Replace(b, [c], [d]);
    forall i | 0 <= i < |r|
      ensures r[i] == (ra + rb)[i]
    {
      if i < |a| {
        assert (a + b)[i] == a[i];
      } else {
        assert (a + b)[i] == b[i - |a|];
      }
    }
  }

  /** Three zero-padded digits of `m < 1000`. */
  function Pad3(m: nat): (s: string)
    requires m < 1000
    ensures |s| == 3 && IsDigits(s)
  {
    [DigitChar(m / 100), DigitChar(m / 10 % 10), DigitChar(m % 10)]
  }

  /** `"{:,}".format(n)` for `n >= 0`: the digits in groups of three from
      the right, separated by commas. */
  function Grouped(n: nat): (s: string)
    ensures |s| >= 1
  {
    if n < 1000 then NatText(n) else Grouped(n / 1000) + "," + Pad3(n % 1000)
  }

  /** `"{:,}".format(n)` for any int. */
  function Thousands(n: int): (s: string)
    ensures StripCommas(s) == IntText(n)
    ensures n >= 0 ==> WellGrouped(s)
    ensures n < 0 ==> s[0] == '-' && WellGrouped(s[1..])
  {
    if n < 0 then
      GroupedDigits(-n);
      GroupedShape(-n);
      StripCommasAppend("-", Grouped(-n));
      "-" + Grouped(-n)
    else
      GroupedDigits(n);
      GroupedShape(n);
      Grouped(n)
  }

  function StripCommas(s: string): (r: string)
    ensures forall c :: c in r ==> c in s && c != ','
  {
    if s == [] then []
    else (if s[0] == ',' then [] else [s[0]]) + StripCommas(s[1..])
  }

  lemma {:induction false} StripCommasAppend(a: string, b: string)
    ensures StripCommas(a + b) == StripCommas(a) + StripCommas(b)
  {
    if a != [] {
      assert (a + b)[0] == a[0];
      assert (a + b)[1..] == a[1..] + b;
      StripCommasAppend(a[1..], b);
      var h := if a[0] == ',' then [] else [a[0]];
      calc {
        StripCommas(a + b);
        h + StripCommas(a[1..] + b);
        h + (StripCommas(a[1..]) + StripCommas(b));
        (h + StripCommas(a[1..])) + StripCommas(b);
      }
    } else {
      assert a + b == b;
    }
  }

  /** The shape of a grouped numeral: one to three leading digits, then
      groups of exactly three digits each preceded by a comma. */
  predicate WellGrouped(s: string)
    decreases |s|
  {
    (1 <= |s| <= 3 && IsDigits(s))
    || (|s| >= 5 && s[|s| - 4] == ',' && IsDigits(s[|s| - 3..]) && WellGrouped(s[..|s| - 4]))
  }

  lemma {:induction false} NatTextSplit(n: nat)
    requires n >= 1000
    ensures NatText(n) == NatText(n / 1000) + Pad3(n % 1000)
  {
    ThousandDigits(n);
    calc {
      NatText(n);
      NatText(n / 10) + [DigitChar(n % 10)];
      NatText(n / 100) + [DigitChar(n / 10 % 10)] + [DigitChar(n % 10)];
      NatText(n / 1000) + [DigitChar(n / 100 % 10)] + [DigitChar(n / 10 % 10)] + [DigitChar(n % 10)];
    }
  }

  /** The last three decimal digits of `n` are those of `n % 1000`. */
  lemma ThousandDigits(n: nat)
    ensures n / 10 / 10 == n / 100 && n / 100 / 10 == n / 1000
    ensures n / 100 % 10 == n % 1000 / 100
    ensures n / 10 % 10 == n % 1000 / 10 % 10 && n % 10 == n % 1000 % 10
  {
    var q, r := n / 1000, n % 1000;
    assert n == 1000 * q + r;
    assert n / 10 == 100 * q + r / 10;
    assert n / 100 == 10 * q + r / 100;
  }

  /** Dropping the commas of a grouped numeral gives back the plain numeral,
      so the grouping shows the same number. */
  lemma {:induction false} GroupedDigits(n: nat)
    ensures StripCommas(Grouped(n)) == NatText(n)
  {
    if n < 1000 {
      NoCommaStrip(NatText(n));
    } else {
      GroupedDigits(n / 1000);
      StripCommasAppend(Grouped(n / 1000) + ",", Pad3(n % 1000));
      StripCommasAppend(Grouped(n / 1000), ",");
      NoCommaStrip(Pad3(n % 1000));
      NatTextSplit(n);
    }
  }

  lemma {:induction false} NoCommaStrip(s: string)
    requires IsDigits(s)
    ensures StripCommas(s) == s
  {
    if s != [] {
      NoCommaStrip(s[1..]);
    }
  }

  lemma {:induction false} GroupedShape(n: nat)
    ensures WellGrouped(Grouped(n))
  {
    if n >= 1000 {
      GroupedShape(n / 1000);
      var s := Grouped(n);
      assert s == Grouped(n / 1000) + "," + Pad3(n % 1000);
      assert s[..|s| - 4] == Grouped(n / 1000);
      assert s[|s| - 3..] == Pad3(n % 1000);
      assert s[|s| - 4] == ',';
    } else {
      NatTextShort(n);
    }
  }

  /** Lower-case hexadecimal digit. */
  function HexChar(d: int): (c: char)
    requires 0 <= d < 16
    ensures HexValue(c) == d
  {
    "0123456789abcdef"[d]
  }

  /** The inverse of `HexChar`; -1 for a character that is not a lower-case hex digit. */
  function HexValue(c: char): int {
    if '0' <= c <= '9' then c as int - '0' as int
    else if 'a' <= c <= 'f' then c as int - 'a' as int + 10
    else -1
  }
}
