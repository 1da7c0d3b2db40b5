/** The volatility estimate: the plain trailing mean of the last 14 true ranges of
    one-minute bars, with a configured floor when too few bars are available. */
module Volatility {
  import opened Options

  /** One price bar, oldest first in a sequence. Open, volume and time are not used. */
  datatype Bar = Bar(high: real, low: real, close: real)

  /** The number of true ranges averaged. */
  const Period: nat := 14

  function Abs(x: real): real
  {
    if x < 0.0 then -x else x
  }

  function Max(a: real, b: real): real
  {
    if a >= b then a else b
  }

  /** The true range of bar i: its high-low span, widened to reach the previous
      close when there is one. */
  function TrueRange(bars: seq<Bar>, i: nat): real
    requires i < |bars|
  {
    var span := bars[i].high - bars[i].low;
    if i == 0 then span
    else
      var prevClose := bars[i - 1].close;
      Max(span, Max(Abs(bars[i].high - prevClose), Abs(bars[i].low - prevClose)))
  }

  /** The true-range column: one entry per bar, oldest first. */
  function Ranges(bars: seq<Bar>): (col: seq<real>)
    ensures |col| == |bars|
  {
    seq(|bars|, i requires 0 <= i < |bars| => TrueRange(bars, i))
  }

  /** The true ranges of the last Period bars, oldest first. */
  function WindowRanges(bars: seq<Bar>): (w: seq<real>)
    requires |bars| >= Period
    ensures |w| == Period
    ensures forall k :: 0 <= k < Period ==> w[k] == TrueRange(bars, |bars| - Period + k)
  {
    seq(Period, k requires 0 <= k < Period => TrueRange(bars, |bars| - Period + k))
  }

  /** The averaging window is the tail of the whole true-range column. */
  lemma WindowIsColumnTail(bars: seq<Bar>)
    requires |bars| >= Period
    ensures WindowRanges(bars) == Ranges(bars)[|bars| - Period..]
  {
  }

  function Sum(xs: seq<real>): real
  {
    if |xs| == 0 then 0.0 else Sum(xs[..|xs| - 1]) + xs[|xs| - 1]
  }

  /** The estimate the bot trades on: the floor when the bars are missing (absent
      or not fetched) or fewer than Period, else the mean of the last Period true
      ranges. */
  function Atr(bars: Option<seq<Bar>>, floor: real): (r: real)
    ensures bars.None? || |bars.value| < Period ==> r == floor
  {
    if bars.None? || |bars.value| < Period then floor
    else Sum(WindowRanges(bars.value)) / (Period as real)
  }

  /** The row-by-row computation: each bar's range is widened against the close
      carried over from the row before, and the last Period ranges are summed. */
  method CalculateAtr(bars: Option<seq<Bar>>, floor: real) returns (atr: real)
    ensures atr == Atr(bars, floor)
  {
    if bars.None? || |bars.value| < Period {
      return floor;
    }
    var b := bars.value;
    var start := |b| - Period;
    ghost var w := WindowRanges(b);
    var sum := 0.0;
    var prevClose: Option<real> := None;
    var i := 0;
    while i < |b|
      invariant 0 <= i <= |b|
      invariant prevClose == (if i == 0 then None else Some(b[i - 1].close))
      invariant i <= start ==> sum == 0.0
      invariant i > start ==> sum == Sum(w[..i - start])
    {
      var tr := b[i].high - b[i].low;
      if prevClose.Some? {
        tr := Max(tr, Max(Abs(b[i].high - prevClose.value), Abs(b[i].low - prevClose.value)));
      }
      assert tr == TrueRange(b, i);
      if i >= start {
        assert w[..i + 1 - start][..i - start] == w[..i - start];
        sum := sum + tr;
      }
      prevClose := Some(b[i].close);
      i := i + 1;
    }
    assert w[..|b| - start] == w;
    atr := sum / (Period as real);
  }

  /** A bar whose high is not below its low. */
  predicate WellFormed(bar: Bar)
  {
    bar.low <= bar.high
  }

  lemma TrueRangeNonNegative(bars: seq<Bar>, i: nat)
    requires i < |bars|
    requires i > 0 || WellFormed(bars[0])
    ensures TrueRange(bars, i) >= 0.0
  {
  }

  lemma ScaleStepBelow(k: int, low: real, prefix: real, last: real)
    requires k >= 1
    requires (k - 1) as real * low <= prefix
    requires low <= last
    ensures k as real * low <= prefix + last
  {
    assert k as real * low == (k - 1) as real * low + low;
  }

  lemma ScaleStepAbove(k: int, high: real, prefix: real, last: real)
    requires k >= 1
    requires prefix <= (k - 1) as real * high
    requires last <= high
    ensures prefix + last <= k as real * high
  {
    assert k as real * high == (k - 1) as real * high + high;
  }

  /** A sum of values each at least low is at least |xs| times low. */
  lemma {:induction false} SumAtLeast(xs: seq<real>, low: real)
    requires forall k :: 0 <= k < |xs| ==> low <= xs[k]
    ensures |xs| as real * low <= Sum(xs)
  {
    if |xs| == 0 {
      assert |xs| as real * low == 0.0;
    } else {
      var init := xs[..|xs| - 1];
      SumAtLeast(init, low);
      ScaleStepBelow(|xs|, low, Sum(init), xs[|xs| - 1]);
    }
  }

  /** A sum of values each at most high is at most |xs| times high. */
  lemma {:induction false} SumAtMost(xs: seq<real>, high: real)
    requires forall k :: 0 <= k < |xs| ==> xs[k] <= high
    ensures Sum(xs) <= |xs| as real * high
  {
    if |xs| == 0 {
      assert |xs| as real * high == 0.0;
    } else {
      var init := xs[..|xs| - 1];
      SumAtMost(init, high);
      ScaleStepAbove(|xs|, high, Sum(init), xs[|xs| - 1]);
    }
  }

  /** The estimate lies between the smallest and largest true range of the window
      it averages. */
  lemma AtrWithinWindowRanges(bars: seq<Bar>, floor: real, low: real, high: real)
    requires |bars| >= Period
    requires forall j :: |bars| - Period <= j < |bars| ==> low <= TrueRange(bars, j) <= high
    ensures low <= Atr(Some(bars), floor) <= high
  {
    var w := WindowRanges(bars);
    SumAtLeast(w, low);
    SumAtMost(w, high);
  }

  /** With well-formed bars and a non-negative floor the estimate is never
      negative. */
  lemma AtrNonNegative(bars: Option<seq<Bar>>, floor: real)
    requires floor >= 0.0
    requires bars.Some? ==> forall b :: b in bars.value ==> WellFormed(b)
    ensures Atr(bars, floor) >= 0.0
  {
    if bars.Some? && |bars.value| >= Period {
      var b := bars.value;
      var w := WindowRanges(b);
      forall k | 0 <= k < |w| ensures 0.0 <= w[k] {
        var j := |b| - Period + k;
        assert j > 0 || WellFormed(b[0]);
        TrueRangeNonNegative(b, j);
      }
      SumAtLeast(w, 0.0);
    }
  }

  /** Once more than Period bars are available, bars older than the one just
      before the window do not affect the estimate. */
  lemma AtrIgnoresOlderBars(bars: seq<Bar>, k: nat, floor: real)
    requires k + Period < |bars|
    ensures Atr(Some(bars), floor) == Atr(Some(bars[k..]), floor)
  {
    var tail := bars[k..];
    var w, w' := WindowRanges(bars), WindowRanges(tail);
    forall m | 0 <= m < Period
      ensures w[m] == w'[m]
    {
      var j := |tail| - Period + m;
      assert tail[j] == bars[j + k] && tail[j - 1] == bars[j + k - 1];
    }
    assert w == w';
  }

  /** Ten bars are too few: the estimate is the floor. */
  lemma TooFewBarsGiveFloor(bars: seq<Bar>)
    requires |bars| == 10
    ensures Atr(Some(bars), 0.00005) == 0.00005
  {
  }
}
