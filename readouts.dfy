/** The small numeric readouts of the dashboard: the temperature conversion
    `CtoF`, the character repeater `rptstr`, the progress bar of
    `setProgress` and the ETA split of the print time left. The script runs
    under Python 2, so `/` on two ints is floor division. */
module Readouts {
  import opened Strings
  import opened Options

  /** `CtoF(value)`: `repr(int(round(9 / 5 * value + 32)))`. Under Python 2
      `9 / 5` is 1, so for an int `value` the expression is the int
      `value + 32` and `round`/`int` leave it unchanged. (Python 2 `/` on
      ints is floor division, which for a positive divisor is Dafny's `/`.) */
  function CtoF(value: int): (s: string)
    ensures IsIntText(s) && ParseInt(s) == value + 32
  {
    IntTextRoundTrip((9 / 5) * value + 32);
    IntText((9 / 5) * value + 32)
  }

  /** `CtoF` is strictly monotone as a number: a higher Celsius reading never
      shows a lower value. */
  lemma CtoFOrder(a: int, b: int)
    requires a < b
    ensures ParseInt(CtoF(a)) < ParseInt(CtoF(b))
  {
  }

  /** Freezing point prints as "32", but boiling water prints as "132", not
      "212": the conversion only adds 32. */
  lemma CtoFAtFreezingAndBoiling()
    ensures CtoF(0) == "32"
    ensures CtoF(100) == "132" && CtoF(100) != "212"
  {
    assert NatText(32) == NatText(3) + [DigitChar(2)];
    assert NatText(132) == NatText(13) + [DigitChar(2)];
    assert NatText(13) == NatText(1) + [DigitChar(3)];
  }

  /** `char * cnt` in Python: `cnt` copies, none when `cnt <= 0`. */
  function Copies(c: char, cnt: int): (r: string)
    ensures |r| == (if cnt > 0 then cnt else 0)
    ensures forall i :: 0 <= i < |r| ==> r[i] == c
  {
    if cnt <= 0 then [] else [c] + Copies(c, cnt - 1)
  }

  /** `rptstr(str, cnt)`: `''.join([char * cnt for char in str])`. */
  function RepeatEach(s: string, cnt: int): (r: string)
    ensures |r| == |s| * (if cnt > 0 then cnt else 0)
  {
    if s == [] then [] else Copies(s[0], cnt) + RepeatEach(s[1..], cnt)
  }

  /** Every `cnt`-th character of `r`, starting with the first: the inverse
      of stretching each character to `cnt` copies. */
  function EveryNth(r: string, cnt: int): string
    requires cnt > 0
    decreases |r|
  {
    if |r| < cnt then [] else [r[0]] + EveryNth(r[cnt..], cnt)
  }

  /** Sampling every `cnt`-th character of `rptstr(s, cnt)` gives back `s`:
      each character becomes a run of exactly `cnt` copies, in order. */
  lemma {:induction false} RepeatEachRoundTrip(s: string, cnt: int)
    requires cnt > 0
    ensures EveryNth(RepeatEach(s, cnt), cnt) == s
  {
    if s != [] {
      var r := RepeatEach(s, cnt);
      assert r[..cnt] == Copies(s[0], cnt);
      assert r[cnt..] == RepeatEach(s[1..], cnt);
      RepeatEachRoundTrip(s[1..], cnt);
    }
  }

  /** `rptstr` distributes over concatenation. */
  lemma {:induction false} RepeatEachConcat(a: string, b: string, cnt: int)
    ensures RepeatEach(a + b, cnt) == RepeatEach(a, cnt) + RepeatEach(b, cnt)
  {
    if a == [] {
      assert a + b == b;
    } else {
      assert (a + b)[0] == a[0];
      assert (a + b)[1..] == a[1..] + b;
      RepeatEachConcat(a[1..], b, cnt);
    }
  }

  /** Position `q * cnt + m` of `rptstr(s, cnt)`, for `m < cnt`, holds the
      `q`-th character of `s`. */
  lemma RepeatEachRun(s: string, cnt: int, q: int, m: int)
    requires cnt > 0 && 0 <= q < |s| && 0 <= m < cnt
    ensures q * cnt + m < |RepeatEach(s, cnt)|
    ensures RepeatEach(s, cnt)[q * cnt + m] == s[q]
  {
    assert s == s[..q] + s[q..];
    RepeatEachConcat(s[..q], s[q..], cnt);
    var pre, suf := RepeatEach(s[..q], cnt), RepeatEach(s[q..], cnt);
    assert |pre| == q * cnt;
    assert s[q..][1..] == s[q + 1..];
    assert suf == Copies(s[q], cnt) + RepeatEach(s[q + 1..], cnt);
    assert (pre + suf)[q * cnt + m] == suf[m];
  }

  /** Multiplying by a positive number keeps the order. */
  lemma MulMono(a: int, b: int, c: int)
    requires c > 0
    ensures a >= b ==> a * c >= b * c
  {
    if a >= b {
      assert (a - b) * c >= 0;
    }
  }

  /** `i` splits into `(i / c) * c + i % c`, and `i < n * c` bounds the
      quotient by `n`. */
  lemma DivBound(i: int, c: int, n: int)
    requires c > 0 && 0 <= i < n * c
    ensures i == (i / c) * c + i % c && 0 <= i % c < c
    ensures 0 <= i / c < n
  {
    MulMono(i / c, n, c);
  }

  /** Character `i` of `rptstr(s, cnt)` is character `i / cnt` of `s`: each
      character of `s` stretched to a run of `cnt` copies, in order. */
  lemma RepeatEachAt(s: string, cnt: int)
    requires cnt > 0
    ensures forall i :: 0 <= i < |RepeatEach(s, cnt)| ==> RepeatEach(s, cnt)[i] == s[i / cnt]
  {
    forall i | 0 <= i < |RepeatEach(s, cnt)|
      ensures RepeatEach(s, cnt)[i] == s[i / cnt]
    {
      DivBound(i, cnt, |s|);
      RepeatEachRun(s, cnt, i / cnt, i % cnt);
    }
  }

  /** A non-positive count gives the empty string, as `char * 0` does. */
  lemma RepeatEachNone(s: string, cnt: int)
    requires cnt <= 0
    ensures RepeatEach(s, cnt) == ""
  {
  }

  /** A filled rectangle `(x, y, w, h)` of the progress bar. */
  datatype Rect = Rect(x: int, y: int, w: int, h: int)

  /** The percentages at which the thirteen blocks appear, left to right. */
  const Thresholds: seq<int> := [7, 16, 24, 31, 39, 45, 52, 60, 69, 78, 85, 92, 100]
  /** The left edges of the thirteen 30 x 30 blocks. */
  const BlockLeft: seq<int> := [14, 49, 84, 119, 154, 189, 224, 260, 295, 330, 365, 401, 437]
  /** The outline drawn first: 470 x 40 at (5, 65). */
  const Outline := Rect(5, 65, 470, 40)

  function Block(i: int): Rect
    requires 0 <= i < 13
  {
    Rect(BlockLeft[i], 70, 30, 30)
  }

  /** The blocks `setProgress` fills, in drawing order: thirteen independent
      `if percent >= t` tests, from test `i` on. */
  function Ladder(percent: int, i: nat): (r: seq<Rect>)
    requires i <= 13
    ensures |r| <= 13 - i
    decreases 13 - i
  {
    if i == 13 then []
    else (if percent >= Thresholds[i] then [Block(i)] else []) + Ladder(percent, i + 1)
  }

  function ProgressBlocks(percent: int): (r: seq<Rect>)
    ensures |r| == Reached(percent, 0) <= 13
    ensures forall k :: 0 <= k < |r| ==> r[k] == Block(k)
  {
    LadderIsRun(percent, 0);
    Ladder(percent, 0)
  }

  /** How many thresholds `percent` reaches. */
  function Reached(percent: int, i: nat): (n: nat)
    requires i <= 13
    decreases 13 - i
  {
    if i == 13 then 0 else (if percent >= Thresholds[i] then 1 else 0) + Reached(percent, i + 1)
  }

  /** Blocks `a` to `b - 1`, left to right. */
  function BlockRun(a: nat, b: nat): (r: seq<Rect>)
    requires a <= b <= 13
    ensures |r| == b - a
    ensures forall k :: 0 <= k < |r| ==> r[k] == Block(a + k)
    decreases b - a
  {
    if a == b then [] else [Block(a)] + BlockRun(a + 1, b)
  }

  lemma ThresholdsIncrease()
    ensures forall i :: 0 <= i < 12 ==> Thresholds[i] < Thresholds[i + 1]
  {
  }

  lemma {:induction false} NoneReachedAfter(percent: int, i: nat)
    requires i < 13 && percent < Thresholds[i]
    ensures Reached(percent, i) == 0
    decreases 13 - i
  {
    if i < 12 {
      ThresholdsIncrease();
      NoneReachedAfter(percent, i + 1);
    }
  }

  /** Because the thresholds increase, the drawn blocks always form a solid
      run from the left: the first `Reached` blocks, none after. */
  lemma {:induction false} LadderIsRun(percent: int, i: nat)
    requires i <= 13
    ensures i + Reached(percent, i) <= 13
    ensures Ladder(percent, i) == BlockRun(i, i + Reached(percent, i))
    decreases 13 - i
  {
    if i < 13 {
      LadderIsRun(percent, i + 1);
      if percent < Thresholds[i] {
        NoneReachedAfter(percent, i);
      }
    }
  }

  lemma {:induction false} BlockRunPrefix(a: nat, b: nat, c: nat)
    requires a <= b <= c <= 13
    ensures BlockRun(a, b) <= BlockRun(a, c)
    decreases b - a
  {
    if a < b {
      BlockRunPrefix(a + 1, b, c);
    }
  }

  /** The ladder in round numbers: below 7% nothing, from 100% all thirteen,
      and the count never goes down as the percentage grows. */
  lemma ProgressBounds(percent: int, more: int)
    requires percent <= more
    ensures percent < 7 ==> ProgressBlocks(percent) == []
    ensures percent >= 100 ==> ProgressBlocks(percent) == BlockRun(0, 13)
    ensures ProgressBlocks(percent) <= ProgressBlocks(more)
  {
    var a := Filled(percent);
    var b := Filled(more);
    ReachedMonotone(percent, more, 0);
    BlockRunPrefix(0, a, b);
    if percent < 7 {
      NoneReachedAfter(percent, 0);
    }
    if percent >= 100 {
      ReachedAll(percent, 0);
    }
  }

  /** `ProgressBlocks` as a run: the first `n` blocks, `n` the number of thresholds reached. */
  lemma Filled(percent: int) returns (n: nat)
    ensures n == Reached(percent, 0) && n <= 13
    ensures ProgressBlocks(percent) == BlockRun(0, n)
  {
    LadderIsRun(percent, 0);
    n := Reached(percent, 0);
  }

  lemma {:induction false} ReachedMonotone(a: int, b: int, i: nat)
    requires a <= b && i <= 13
    ensures Reached(a, i) <= Reached(b, i)
    decreases 13 - i
  {
    if i < 13 {
      ReachedMonotone(a, b, i + 1);
    }
  }

  lemma {:induction false} ReachedAll(p: int, i: nat)
    requires p >= 100 && i <= 13
    ensures Reached(p, i) == 13 - i
    decreases 13 - i
  {
    if i < 13 {
      ReachedAll(p, i + 1);
    }
  }

  /** Every drawn block lies strictly inside the outline and no two drawn
      blocks overlap. */
  lemma ProgressGeometry(percent: int)
    ensures forall k :: 0 <= k < |ProgressBlocks(percent)| ==> Inside(ProgressBlocks(percent)[k], Outline)
    ensures forall j, k :: 0 <= j < k < |ProgressBlocks(percent)| ==>
      ProgressBlocks(percent)[j].x + ProgressBlocks(percent)[j].w < ProgressBlocks(percent)[k].x
  {
    var r := ProgressBlocks(percent);
    forall k | 0 <= k < |r|
      ensures Inside(r[k], Outline)
    {
      assert r[k] == Block(k);
      BlockInside(k);
    }
    forall j, k | 0 <= j < k < |r|
      ensures r[j].x + r[j].w < r[k].x
    {
      assert r[j] == Block(j) && r[k] == Block(k);
      BlockLeftGaps(j, k);
    }
  }

  predicate Inside(b: Rect, frame: Rect) {
    frame.x < b.x && b.x + b.w < frame.x + frame.w && frame.y < b.y && b.y + b.h < frame.y + frame.h
  }

  lemma BlockInside(i: int)
    requires 0 <= i < 13
    ensures Inside(Block(i), Outline)
  {
    assert forall m :: 0 <= m < 13 ==> 14 <= BlockLeft[m] <= 437;
  }

  lemma {:induction false} BlockLeftGaps(j: int, k: int)
    requires 0 <= j < k < 13
    ensures BlockLeft[j] + 30 < BlockLeft[k]
    decreases k - j
  {
    assert forall m :: 0 <= m < 12 ==> BlockLeft[m] + 30 < BlockLeft[m + 1];
    if k > j + 1 {
      BlockLeftGaps(j, k - 1);
    }
  }

  /** The ETA split of lines 486-498: whole days, hours, minutes and the
      leftover seconds. */
  datatype Eta = Eta(day: int, hour: int, minutes: int, seconds: int)

  const Day := 24 * 3600

  /** Python's `//` and `%` take the floor and give a remainder with the sign
      of the divisor; for the positive divisors used here they agree with
      Dafny's `/` and `%`, also for a negative time. A missing time left
      gives all zeros. */
  function SplitTime(left: Option<int>): (e: Eta)
    ensures left.Some? ==>
      e.day * Day + e.hour * 3600 + e.minutes * 60 + e.seconds == left.value
    ensures 0 <= e.hour < 24 && 0 <= e.minutes < 60 && 0 <= e.seconds < 60
    ensures left.None? ==> e == Eta(0, 0, 0, 0)
    ensures left.Some? && left.value >= 0 ==> e.day >= 0
  {
    match left
    case None => Eta(0, 0, 0, 0)
    case Some(t) =>
      var day := t / Day;
      var t1 := t % Day;
      var hour := t1 / 3600;
      var t2 := t1 % 3600;
      var minutes := t2 / 60;
      Eta(day, hour, minutes, t2 % 60)
  }

  function Seconds(e: Eta): int {
    e.day * Day + e.hour * 3600 + e.minutes * 60 + e.seconds
  }

  /** The split is the only one with in-range fields: splitting the total of
      any in-range ETA gives that ETA back. */
  lemma SplitTimeUnique(e: Eta)
    requires 0 <= e.hour < 24 && 0 <= e.minutes < 60 && 0 <= e.seconds < 60
    ensures SplitTime(Some(Seconds(e))) == e
  {
    var t := Seconds(e);
    var rest := e.hour * 3600 + e.minutes * 60 + e.seconds;
    assert 0 <= rest < Day;
    assert t / Day == e.day && t % Day == rest;
    var r2 := e.minutes * 60 + e.seconds;
    assert rest / 3600 == e.hour && rest % 3600 == r2;
    assert r2 / 60 == e.minutes && r2 % 60 == e.seconds;
  }

  /** Python's `"%02d" % n`: at least two characters, zero-padded after the sign. */
  function Pad2(n: int): (s: string)
    ensures |s| >= 2
    ensures 0 <= n < 100 ==> |s| == 2 && IsDigits(s) && DigitsValue(s) == n
  {
    if n < 0 then "-" + NatText(-n)
    else if n < 10 then (NatTextValue(n); "0" + NatText(n))
    else if n < 100 then (NatTextShort(n); NatTextValue(n); NatText(n))
    else NatText(n)
  }

  /** The ETA line of the dashboard: `"ETA:    %02d:%02d:%02d" % (day, hour, minutes)`. */
  function EtaText(e: Eta): (r: string)
    ensures |r| >= 16 && r[..8] == "ETA:    "
    ensures 0 <= e.day < 100 && 0 <= e.hour < 24 && 0 <= e.minutes < 60 ==>
      |r| == 16 && r[10] == ':' && r[13] == ':' && IsDigits(r[8..10]) && IsDigits(r[11..13]) && IsDigits(r[14..]) &&
      DigitsValue(r[8..10]) == e.day && DigitsValue(r[11..13]) == e.hour && DigitsValue(r[14..]) == e.minutes
  {
    var d, h, m := Pad2(e.day), Pad2(e.hour), Pad2(e.minutes);
    EtaFields("ETA:    ", d, h, m);
    "ETA:    " + d + ":" + h + ":" + m
  }

  /** Where the fields of the ETA line sit. */
  lemma EtaFields(p: string, d: string, h: string, m: string)
    requires |p| == 8 && |d| >= 2 && |h| >= 2 && |m| >= 2
    ensures var r := p + d + ":" + h + ":" + m;
      |r| == 10 + |d| + |h| + |m| && r[..8] == p &&
      (|d| == 2 && |h| == 2 ==> r[8..10] == d && r[10] == ':' && r[11..13] == h && r[13] == ':' && r[14..] == m)
  {
    var r := p + d + ":" + h + ":" + m;
    assert r == p + (d + (":" + (h + (":" + m))));
  }

  /** For a time left under 100 days the ETA line is exactly 16 characters,
      and a missing time shows `00:00:00`. */
  lemma EtaTextWidth(left: Option<int>)
    requires left.Some? ==> 0 <= left.value < 100 * Day
    ensures |EtaText(SplitTime(left))| == 16
    ensures left.None? ==> EtaText(SplitTime(left)) == "ETA:    00:00:00"
  {
    var e := SplitTime(left);
    if left.Some? {
      assert e.day < 100;
    } else {
      assert Pad2(0) == "00";
    }
  }
}
