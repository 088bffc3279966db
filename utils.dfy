/** The scoring helpers of lib/utils.ts: rendering a duration in seconds as a
    clock string, a percentage rounded to two decimals, and the 1-based rank
    of a score among all scores (which sorts the caller's array in place). */
module Utils {
  import opened Numbers
  import opened Text
  import opened Wrappers

  // ---------------------------------------------------------------- formatTime

  function Hours(seconds: nat): nat { seconds / 3600 }
  function Minutes(seconds: nat): nat { (seconds % 3600) / 60 }
  function Secs(seconds: nat): nat { seconds % 60 }

  /** The three clock components recombine into the duration, and minutes and
      seconds are proper clock fields. */
  lemma TimeComponents(seconds: nat)
    ensures Hours(seconds) * 3600 + Minutes(seconds) * 60 + Secs(seconds) == seconds
    ensures Minutes(seconds) < 60 && Secs(seconds) < 60
    ensures Hours(seconds) > 0 <==> seconds >= 3600
  {
  }

  /** `formatTime`: `H:MM:SS` when there is at least one hour, else `M:SS`.
      (`TwoDigits(n)` is `n.toString().padStart(2, '0')`.) */
  function FormatTime(seconds: nat): string
  {
    var hours := Hours(seconds);
    var minutes := Minutes(seconds);
    var secs := Secs(seconds);
    if hours > 0 then NatToString(hours) + ":" + TwoDigits(minutes) + ":" + TwoDigits(secs)
    else NatToString(minutes) + ":" + TwoDigits(secs)
  }

  predicate IsTwoDigitField(f: string)
  {
    |f| == 2 && IsDigit(f[0]) && IsDigit(f[1])
  }

  /** Reads a clock string back into seconds: `H:MM:SS` with a canonical,
      non-zero hour count, or `M:SS` with a canonical minute count below 60;
      minutes and seconds fields below 60. Anything else is rejected. */
  function ParseTime(t: string): Option<nat>
  {
    ParseFields(Split(t, ':'))
  }

  function ParseFields(f: seq<string>): Option<nat>
  {
    if |f| == 3 && IsCanonical(f[0]) && f[0][0] != '0'
       && IsTwoDigitField(f[1]) && IsTwoDigitField(f[2])
       && NumeralValue(f[1]) < 60 && NumeralValue(f[2]) < 60
    then Some(NumeralValue(f[0]) * 3600 + NumeralValue(f[1]) * 60 + NumeralValue(f[2]))
    else if |f| == 2 && IsCanonical(f[0]) && IsTwoDigitField(f[1])
       && NumeralValue(f[0]) < 60 && NumeralValue(f[1]) < 60
    then Some(NumeralValue(f[0]) * 60 + NumeralValue(f[1]))
    else None
  }

  lemma DigitsHaveNoColon(s: string)
    requires forall i :: 0 <= i < |s| ==> IsDigit(s[i])
    ensures ':' !in s
  {
  }

  /** The fields `formatTime` writes: three when the duration reaches an hour,
      two otherwise; the seconds field always has two digits, the minutes field
      has two digits in the hour form. */
  lemma FormatTimeShape(seconds: nat)
    ensures var f := Split(FormatTime(seconds), ':');
      && |f| == (if seconds >= 3600 then 3 else 2)
      && |f[|f| - 1]| == 2
      && (seconds >= 3600 ==> |f[1]| == 2)
  {
    TimeComponents(seconds);
    FormatTimeFields(seconds);
  }

  /** Helper: how `FormatTime` splits into its fields. */
  lemma FormatTimeFields(seconds: nat)
    ensures Hours(seconds) > 0 ==>
      Split(FormatTime(seconds), ':') ==
        [NatToString(Hours(seconds)), TwoDigits(Minutes(seconds)), TwoDigits(Secs(seconds))]
    ensures Hours(seconds) == 0 ==>
      Split(FormatTime(seconds), ':') == [NatToString(Minutes(seconds)), TwoDigits(Secs(seconds))]
  {
    ClockFields(Hours(seconds), Minutes(seconds), Secs(seconds));
  }

  lemma ClockFields(h: nat, m: nat, s: nat)
    requires m < 60 && s < 60
    ensures h > 0 ==>
      Split(NatToString(h) + ":" + TwoDigits(m) + ":" + TwoDigits(s), ':') ==
        [NatToString(h), TwoDigits(m), TwoDigits(s)]
    ensures Split(NatToString(m) + ":" + TwoDigits(s), ':') == [NatToString(m), TwoDigits(s)]
  {
    var hs, ms, mm, ss := NatToString(h), TwoDigits(m), NatToString(m), TwoDigits(s);
    DigitsHaveNoColon(hs);
    DigitsHaveNoColon(ms);
    DigitsHaveNoColon(mm);
    DigitsHaveNoColon(ss);
    SplitThree(hs, ms, ss, ':');
    SplitTwo(mm, ss, ':');
  }

  /** Reading back what `formatTime` writes gives the duration. */
  lemma FormatTimeRoundTrip(seconds: nat)
    ensures ParseTime(FormatTime(seconds)) == Some(seconds)
  {
    var h, m, s := Hours(seconds), Minutes(seconds), Secs(seconds);
    TimeComponents(seconds);
    ParseClock(h, m, s);
    if h > 0 {
      assert FormatTime(seconds) == NatToString(h) + ":" + TwoDigits(m) + ":" + TwoDigits(s);
    } else {
      assert FormatTime(seconds) == NatToString(m) + ":" + TwoDigits(s);
    }
  }

  /** Helper: `ParseTime` reads both clock forms built from given fields. */
  lemma ParseClock(h: nat, m: nat, s: nat)
    requires m < 60 && s < 60
    ensures h > 0 ==>
      ParseTime(NatToString(h) + ":" + TwoDigits(m) + ":" + TwoDigits(s)) == Some(h * 3600 + m * 60 + s)
    ensures ParseTime(NatToString(m) + ":" + TwoDigits(s)) == Some(m * 60 + s)
  {
    ClockFields(h, m, s);
    ParseClockFields(h, m, s);
  }

  lemma ParseClockFields(h: nat, m: nat, s: nat)
    requires m < 60 && s < 60
    ensures h > 0 ==>
      ParseFields([NatToString(h), TwoDigits(m), TwoDigits(s)]) == Some(h * 3600 + m * 60 + s)
    ensures ParseFields([NatToString(m), TwoDigits(s)]) == Some(m * 60 + s)
  {
    if h > 0 {
      ParseHourFields(h, m, s);
    }
    ParseMinuteFields(m, s);
  }

  /** Helper: the fields of the hour form are accepted with their value. */
  lemma ParseHourFields(h: nat, m: nat, s: nat)
    requires h > 0 && m < 60 && s < 60
    ensures ParseFields([NatToString(h), TwoDigits(m), TwoDigits(s)]) == Some(h * 3600 + m * 60 + s)
  {
    var hs, ms, ss := NatToString(h), TwoDigits(m), TwoDigits(s);
    var f := [hs, ms, ss];
    NatToStringRoundTrip(h);
    assert hs[0] != '0' by {
      if h < 10 { assert hs == [DigitChar(h)]; }
    }
    assert IsCanonical(f[0]) && f[0][0] != '0';
    assert IsTwoDigitField(f[1]) && NumeralValue(f[1]) == m;
    assert IsTwoDigitField(f[2]) && NumeralValue(f[2]) == s;
    assert NumeralValue(f[0]) == h;
  }

  /** Helper: the fields of the minute form are accepted with their value. */
  lemma ParseMinuteFields(m: nat, s: nat)
    requires m < 60 && s < 60
    ensures ParseFields([NatToString(m), TwoDigits(s)]) == Some(m * 60 + s)
  {
    var f := [NatToString(m), TwoDigits(s)];
    NatToStringRoundTrip(m);
    assert IsCanonical(f[0]) && NumeralValue(f[0]) == m;
    assert IsTwoDigitField(f[1]) && NumeralValue(f[1]) == s;
  }

  /** Every string `ParseTime` accepts is exactly what `formatTime` writes for
      its value: the clock format has one spelling per duration. */
  lemma ParseTimeCanonical(t: string, seconds: nat)
    requires ParseTime(t) == Some(seconds)
    ensures FormatTime(seconds) == t
  {
    FormatTimeRoundTrip(seconds);
    ParseFieldsInjective(Split(t, ':'), Split(FormatTime(seconds), ':'), seconds);
    JoinSplit(t, ':');
    JoinSplit(FormatTime(seconds), ':');
  }

  /** Two field lists that read as the same duration are the same fields. */
  lemma ParseFieldsInjective(f: seq<string>, g: seq<string>, seconds: nat)
    requires ParseFields(f) == Some(seconds) && ParseFields(g) == Some(seconds)
    ensures f == g
  {
    FieldsForm(f, seconds);
    FieldsForm(g, seconds);
    if |f| == 3 {
      ClockInjective(NumeralValue(f[0]), NumeralValue(f[1]), NumeralValue(f[2]),
                     NumeralValue(g[0]), NumeralValue(g[1]), NumeralValue(g[2]));
      CanonicalInjective(f[0], g[0]);
      TwoDigitInjective(f[1], g[1]);
      TwoDigitInjective(f[2], g[2]);
      assert f == [f[0], f[1], f[2]] && g == [g[0], g[1], g[2]];
    } else {
      ClockInjective(0, NumeralValue(f[0]), NumeralValue(f[1]),
                     0, NumeralValue(g[0]), NumeralValue(g[1]));
      CanonicalInjective(f[0], g[0]);
      TwoDigitInjective(f[1], g[1]);
      assert f == [f[0], f[1]] && g == [g[0], g[1]];
    }
  }

  /** Helper: an accepted field list has three fields (with a positive hour
      count) exactly when the duration reaches an hour, else two. */
  lemma FieldsForm(f: seq<string>, seconds: nat)
    requires ParseFields(f) == Some(seconds)
    ensures |f| == (if seconds >= 3600 then 3 else 2)
    ensures |f| == 3 ==>
      && IsCanonical(f[0]) && IsTwoDigitField(f[1]) && IsTwoDigitField(f[2])
      && NumeralValue(f[1]) < 60 && NumeralValue(f[2]) < 60
      && seconds == NumeralValue(f[0]) * 3600 + NumeralValue(f[1]) * 60 + NumeralValue(f[2])
    ensures |f| == 2 ==>
      && IsCanonical(f[0]) && IsTwoDigitField(f[1])
      && NumeralValue(f[0]) < 60 && NumeralValue(f[1]) < 60
      && seconds == NumeralValue(f[0]) * 60 + NumeralValue(f[1])
  {
    if |f| == 3 && IsCanonical(f[0]) && f[0][0] != '0'
       && IsTwoDigitField(f[1]) && IsTwoDigitField(f[2])
       && NumeralValue(f[1]) < 60 && NumeralValue(f[2]) < 60 {
      LeadingNonZeroPositive(f[0]);
    }
  }

  /** Helper: clock components in range are determined by the duration. */
  lemma ClockInjective(h: nat, m: nat, s: nat, h2: nat, m2: nat, s2: nat)
    requires m < 60 && s < 60 && m2 < 60 && s2 < 60
    requires h * 3600 + m * 60 + s == h2 * 3600 + m2 * 60 + s2
    ensures h == h2 && m == m2 && s == s2
  {
    ClockDecompose(h, m, s);
    ClockDecompose(h2, m2, s2);
  }

  /** Helper: canonical numerals with the same value are equal. */
  lemma CanonicalInjective(a: string, b: string)
    requires IsCanonical(a) && IsCanonical(b) && NumeralValue(a) == NumeralValue(b)
    ensures a == b
  {
    CanonicalRoundTrip(a);
    CanonicalRoundTrip(b);
  }

  /** Helper: two-digit fields with the same value are equal. */
  lemma TwoDigitInjective(a: string, b: string)
    requires IsTwoDigitField(a) && IsTwoDigitField(b) && NumeralValue(a) == NumeralValue(b)
    ensures a == b
  {
    TwoDigitsOfValue(a);
    TwoDigitsOfValue(b);
  }

  /** Helper: clock fields in range are recovered by `Hours`, `Minutes`, `Secs`. */
  lemma ClockDecompose(h: nat, m: nat, s: nat)
    requires m < 60 && s < 60
    ensures Hours(h * 3600 + m * 60 + s) == h
    ensures Minutes(h * 3600 + m * 60 + s) == m
    ensures Secs(h * 3600 + m * 60 + s) == s
  {
    var n := h * 3600 + m * 60 + s;
    DivModUnique(n, 3600, h, m * 60 + s);
    DivModUnique(m * 60 + s, 60, m, s);
    assert n == (h * 60 + m) * 60 + s;
    DivModUnique(n, 60, h * 60 + m, s);
  }

  /** Helper: quotient and remainder by a positive constant are unique. */
  lemma DivModUnique(n: nat, d: nat, q: nat, r: nat)
    requires d == 60 || d == 3600
    requires r < d && n == q * d + r
    ensures n / d == q && n % d == r
  {
    if d == 60 {
      var q0, r0 := n / 60, n % 60;
      assert n == q0 * 60 + r0 && r0 < 60;
    } else {
      var q0, r0 := n / 3600, n % 3600;
      assert n == q0 * 3600 + r0 && r0 < 3600;
    }
  }

  // ------------------------------------------------------- calculatePercentage

  /** `calculatePercentage`: obtained / total as a percentage rounded to two
      decimals; 0 for a zero total, with no division. */
  function CalculatePercentage(obtained: real, total: real): (r: real)
    ensures total == 0.0 ==> r == 0.0
    ensures total != 0.0 ==> -0.005 < r - obtained / total * 100.0 <= 0.005
    ensures (r * 100.0).Floor as real == r * 100.0
  {
    if total == 0.0 then 0.0
    else
      var q := obtained / total;
      var x := q * 100.0 * 100.0;
      var k := Round(x);
      assert k as real / 100.0 - q * 100.0 == (k as real - x) / 100.0;
      k as real / 100.0
  }

  /** Full marks give exactly 100. */
  lemma PercentageOfFullMarks(total: real)
    requires total != 0.0
    ensures CalculatePercentage(total, total) == 100.0
  {
    assert total / total == 1.0;
    RoundOfInteger(10000);
  }

  /** Between none and all of the marks, the percentage lies in [0, 100]. */
  lemma PercentageBounds(obtained: real, total: real)
    requires total > 0.0 && 0.0 <= obtained <= total
    ensures 0.0 <= CalculatePercentage(obtained, total) <= 100.0
  {
    var x := obtained / total * 100.0 * 100.0;
    assert obtained / total <= 1.0;
    RoundWithin(x, 0, 10000);
  }

  /** More marks out of the same positive total never give a lower percentage. */
  lemma PercentageMonotone(o1: real, o2: real, total: real)
    requires total > 0.0 && o1 <= o2
    ensures CalculatePercentage(o1, total) <= CalculatePercentage(o2, total)
  {
    assert o1 / total <= o2 / total;
    RoundMonotone(o1 / total * 100.0 * 100.0, o2 / total * 100.0 * 100.0);
  }

  // ------------------------------------------------------------ calculateRank

  /** The number of scores strictly greater than `x`. */
  function CountAbove(s: seq<real>, x: real): nat
  {
    if s == [] then 0 else (if s[0] > x then 1 else 0) + CountAbove(s[1..], x)
  }

  /** The rank `calculateRank` returns: 1 + the number of strictly higher
      scores when `score` occurs (ties share a rank), 0 when it does not. */
  function Rank(score: real, scores: seq<real>): nat
  {
    if score in scores then 1 + CountAbove(scores, score) else 0
  }

  ghost predicate SortedDesc(s: seq<real>)
  {
    forall i, j :: 0 <= i < j < |s| ==> s[i] >= s[j]
  }

  lemma {:induction false} CountAboveAppend(a: seq<real>, b: seq<real>, x: real)
    ensures CountAbove(a + b, x) == CountAbove(a, x) + CountAbove(b, x)
  {
    if a != [] {
      assert (a + b)[1..] == a[1..] + b;
      CountAboveAppend(a[1..], b, x);
    } else {
      assert a + b == b;
    }
  }

  /** The count of higher scores does not depend on their order. */
  lemma {:induction false} CountAbovePermutation(s: seq<real>, t: seq<real>, x: real)
    requires multiset(s) == multiset(t)
    ensures CountAbove(s, x) == CountAbove(t, x)
    decreases |s|
  {
    if s == [] {
      assert |t| == |multiset(t)| == 0;
    } else {
      assert s[0] in multiset(t);
      var k :| 0 <= k < |t| && t[k] == s[0];
      var rest := t[..k] + t[k + 1..];
      TailMultiset(s);
      RemoveAtMultiset(t, k);
      CountAbovePermutation(s[1..], rest, x);
      CountAboveRemoveAt(t, k, x);
    }
  }

  /** Helper: removing position `k` removes one copy of `t[k]`. */
  lemma RemoveAtMultiset(t: seq<real>, k: nat)
    requires k < |t|
    ensures multiset(t[..k] + t[k + 1..]) == multiset(t) - multiset{t[k]}
  {
    assert t == t[..k] + [t[k]] + t[k + 1..];
    assert multiset(t) == multiset(t[..k]) + multiset{t[k]} + multiset(t[k + 1..]);
  }

  /** Helper: removing position `k` lowers the count by the contribution of `t[k]`. */
  lemma CountAboveRemoveAt(t: seq<real>, k: nat, x: real)
    requires k < |t|
    ensures CountAbove(t, x) == (if t[k] > x then 1 else 0) + CountAbove(t[..k] + t[k + 1..], x)
  {
    assert t == t[..k] + [t[k]] + t[k + 1..];
    CountAboveAppend(t[..k] + [t[k]], t[k + 1..], x);
    CountAboveAppend(t[..k], [t[k]], x);
    CountAboveAppend(t[..k], t[k + 1..], x);
  }

  lemma {:induction false} CountAboveNone(s: seq<real>, x: real)
    requires forall i :: 0 <= i < |s| ==> s[i] <= x
    ensures CountAbove(s, x) == 0
  {
    if s != [] {
      CountAboveNone(s[1..], x);
    }
  }

  lemma {:induction false} CountAboveAll(s: seq<real>, x: real)
    requires forall i :: 0 <= i < |s| ==> s[i] > x
    ensures CountAbove(s, x) == |s|
  {
    if s != [] {
      CountAboveAll(s[1..], x);
    }
  }

  /** A score that occurs has a rank between 1 and the number of scores; one
      that does not occur has rank 0. */
  lemma {:induction false} RankBounds(score: real, scores: seq<real>)
    ensures score in scores ==> 1 <= Rank(score, scores) <= |scores|
    ensures score !in scores ==> Rank(score, scores) == 0
  {
    if score in scores {
      var k :| 0 <= k < |scores| && scores[k] == score;
      assert scores == scores[..k] + [scores[k]] + scores[k + 1..];
      CountAboveAppend(scores[..k] + [scores[k]], scores[k + 1..], score);
      CountAboveAppend(scores[..k], [scores[k]], score);
      CountAboveBound(scores[..k], score);
      CountAboveBound(scores[k + 1..], score);
    }
  }

  lemma {:induction false} CountAboveBound(s: seq<real>, x: real)
    ensures CountAbove(s, x) <= |s|
  {
    if s != [] {
      CountAboveBound(s[1..], x);
    }
  }

  /** A top score (no score above it) has rank 1. */
  lemma TopScoreRanksFirst(score: real, scores: seq<real>)
    requires score in scores
    requires forall i :: 0 <= i < |scores| ==> scores[i] <= score
    ensures Rank(score, scores) == 1
  {
    CountAboveNone(scores, score);
  }

  /** A higher score never gets a worse (larger) rank. */
  lemma {:induction false} RankMonotone(hi: real, lo: real, scores: seq<real>)
    requires hi in scores && lo in scores && lo <= hi
    ensures Rank(hi, scores) <= Rank(lo, scores)
  {
    CountAboveAntitone(scores, lo, hi);
  }

  lemma {:induction false} CountAboveAntitone(s: seq<real>, lo: real, hi: real)
    requires lo <= hi
    ensures CountAbove(s, hi) <= CountAbove(s, lo)
  {
    if s != [] {
      CountAboveAntitone(s[1..], lo, hi);
    }
  }

  /** In a descending arrangement of the scores, the first position holding
      `score` is its rank minus one: this is what `indexOf(score) + 1` reads. */
  lemma RankFromSorted(t: seq<real>, scores: seq<real>, score: real, i: nat)
    requires SortedDesc(t) && multiset(t) == multiset(scores)
    requires i < |t| && t[i] == score
    requires forall j :: 0 <= j < i ==> t[j] != score
    ensures i + 1 == Rank(score, scores)
  {
    assert score in multiset(scores);
    var above, rest := t[..i], t[i..];
    assert t == above + rest;
    forall j | 0 <= j < |above| ensures above[j] > score {
      assert t[j] >= t[i] && t[j] != score;
    }
    forall j | 0 <= j < |rest| ensures rest[j] <= score {
      assert rest[j] == t[i + j];
    }
    CountAboveAppend(above, rest, score);
    CountAboveAll(above, score);
    CountAboveNone(rest, score);
    CountAbovePermutation(scores, t, score);
  }

  /** Two descending arrangements of the same scores are equal, so every
      descending sort leaves the array in the same state. */
  lemma {:induction false} SortedDescUnique(s: seq<real>, t: seq<real>)
    requires SortedDesc(s) && SortedDesc(t) && multiset(s) == multiset(t)
    ensures s == t
    decreases |s|
  {
    if s != [] {
      SortedSameHead(s, t);
      SortedTail(s);
      SortedTail(t);
      SortedDescUnique(s[1..], t[1..]);
      assert s == [s[0]] + s[1..] && t == [t[0]] + t[1..];
    } else {
      assert |t| == |multiset(t)| == 0;
    }
  }

  /** Helper: two descending arrangements of the same scores share their
      head, and so their tails hold the same scores. */
  lemma SortedSameHead(s: seq<real>, t: seq<real>)
    requires SortedDesc(s) && SortedDesc(t) && multiset(s) == multiset(t) && s != []
    ensures t != [] && s[0] == t[0] && multiset(s[1..]) == multiset(t[1..])
  {
    assert s[0] in multiset(t);
    assert t[0] in multiset(s);
    SortedHeadIsMax(t, s[0]);
    SortedHeadIsMax(s, t[0]);
    TailMultiset(s);
    TailMultiset(t);
  }

  /** Helper: the tail of a descending sequence is descending. */
  lemma SortedTail(s: seq<real>)
    requires SortedDesc(s) && s != []
    ensures SortedDesc(s[1..])
  {
    forall i, j | 0 <= i < j < |s| - 1 ensures s[1..][i] >= s[1..][j] {
      assert s[1..][i] == s[i + 1] && s[1..][j] == s[j + 1];
    }
  }

  /** Helper: a descending sequence starts with its largest element. */
  lemma SortedHeadIsMax(t: seq<real>, x: real)
    requires SortedDesc(t) && x in t
    ensures t[0] >= x
  {
    var k :| 0 <= k < |t| && t[k] == x;
    if k > 0 {
      assert t[0] >= t[k];
    }
  }

  /** Helper: the tail's multiset is the whole one less the head. */
  lemma TailMultiset(s: seq<real>)
    requires s != []
    ensures multiset(s[1..]) == multiset(s) - multiset{s[0]}
  {
    assert s == [s[0]] + s[1..];
    assert multiset(s) == multiset{s[0]} + multiset(s[1..]);
  }

  /** Index of a largest element of `a[lo..]`. */
  method MaxIndexFrom(a: array<real>, lo: nat) returns (m: nat)
    requires lo < a.Length
    ensures lo <= m < a.Length
    ensures forall k :: lo <= k < a.Length ==> a[k] <= a[m]
  {
    m := lo;
    var k := lo + 1;
    while k < a.Length
      invariant lo <= m < k <= a.Length
      invariant forall j :: lo <= j < k ==> a[j] <= a[m]
    {
      if a[k] > a[m] {
        m := k;
      }
      k := k + 1;
    }
  }

  method Swap(a: array<real>, i: nat, j: nat)
    requires i < a.Length && j < a.Length
    modifies a
    ensures a[i] == old(a[j]) && a[j] == old(a[i])
    ensures forall k :: 0 <= k < a.Length && k != i && k != j ==> a[k] == old(a[k])
    ensures multiset(a[..]) == multiset(old(a[..]))
  {
    a[i], a[j] := a[j], a[i];
  }

  /** `allScores.sort((a, b) => b - a)`: sorts the array in place, descending. */
  method SortDescending(a: array<real>)
    modifies a
    ensures SortedDesc(a[..])
    ensures multiset(a[..]) == multiset(old(a[..]))
  {
    var i := 0;
    while i < a.Length
      invariant 0 <= i <= a.Length
      invariant forall j, k :: 0 <= j < k < i ==> a[j] >= a[k]
      invariant forall j, k :: 0 <= j < i <= k < a.Length ==> a[j] >= a[k]
      invariant multiset(a[..]) == multiset(old(a[..]))
    {
      var m := MaxIndexFrom(a, i);
      Swap(a, i, m);
      i := i + 1;
    }
  }

  /** `a.indexOf(x)`: the first position holding `x`, or -1. */
  method IndexOf(a: array<real>, x: real) returns (i: int)
    ensures -1 <= i < a.Length
    ensures i >= 0 ==> a[i] == x && forall j :: 0 <= j < i ==> a[j] != x
    ensures i == -1 ==> x !in a[..]
  {
    i := 0;
    while i < a.Length
      invariant 0 <= i <= a.Length
      invariant forall j :: 0 <= j < i ==> a[j] != x
    {
      if a[i] == x {
        return;
      }
      i := i + 1;
    }
    i := -1;
  }

  /** `calculateRank`: sorts the caller's `allScores` descending in place and
      returns `indexOf(score) + 1`. */
  method CalculateRank(score: real, allScores: array<real>) returns (rank: int)
    modifies allScores
    ensures SortedDesc(allScores[..])
    ensures multiset(allScores[..]) == multiset(old(allScores[..]))
    ensures rank == Rank(score, old(allScores[..]))
  {
    ghost var before := allScores[..];
    SortDescending(allScores);
    var i := IndexOf(allScores, score);
    rank := i + 1;
    if i >= 0 {
      RankFromSorted(allScores[..], before, score, i);
    } else {
      assert score !in multiset(before);
    }
  }
}
