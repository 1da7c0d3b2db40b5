/** Per-symbol price history and the momentum signal derived from it. */
module PriceHistory {
  import opened Options

  /** The most prices a symbol's history keeps. */
  const Capacity: nat := 50

  /** The trailing window of at most Capacity entries of a price stream: the
      history the bot should hold after seeing exactly these prices. */
  function Window(s: seq<real>): seq<real>
  {
    if |s| <= Capacity then s else s[|s| - Capacity..]
  }

  /** Appends a price, then drops the oldest entry once the history is over
      capacity. */
  function Push(h: seq<real>, p: real): (r: seq<real>)
    ensures |r| > 0 && r[|r| - 1] == p
    ensures |h| <= Capacity ==> |r| <= Capacity
    ensures |h| < Capacity ==> |r| == |h| + 1 && r[..|h|] == h
    ensures |h| >= Capacity ==> |r| == |h| && r[..|r| - 1] == h[1..]
  {
    var a := h + [p];
    if |a| > Capacity then
      assert a[1..] == h[1..] + [p];
      a[1..]
    else
      assert a[..|h|] == h;
      a
  }

  /** Pushes a stream of prices, oldest first. */
  function PushAll(h: seq<real>, ps: seq<real>): seq<real>
  {
    if |ps| == 0 then h else Push(PushAll(h, ps[..|ps| - 1]), ps[|ps| - 1])
  }

  lemma PushWindow(s: seq<real>, p: real)
    ensures Push(Window(s), p) == Window(s + [p])
  {
    if |s| >= Capacity {
      var w := s[|s| - Capacity..];
      assert (w + [p])[1..] == (s + [p])[|s| + 1 - Capacity..];
    }
  }

  /** Starting from a history within capacity, the history after any stream of
      prices is the trailing window of everything seen: at most Capacity long,
      oldest entries dropped first, order kept. */
  lemma {:induction false} PushAllIsWindow(h: seq<real>, ps: seq<real>)
    requires |h| <= Capacity
    ensures PushAll(h, ps) == Window(h + ps)
  {
    if |ps| == 0 {
      assert h + ps == h;
    } else {
      var init := ps[..|ps| - 1];
      var last := ps[|ps| - 1];
      PushAllIsWindow(h, init);
      PushWindow(h + init, last);
      assert h + init + [last] == h + ps;
    }
  }

  /** The momentum of the newest price against the one before it:
      zero on a cold start, absent when the previous price is zero (the
      division raises and the tick is abandoned). */
  function PercentGain(h: seq<real>): (g: Option<real>)
    ensures |h| < 2 ==> g == Some(0.0)
    ensures |h| >= 2 ==> (g.None? <==> h[|h| - 2] == 0.0)
    ensures |h| >= 2 && g.Some? ==> g.value * h[|h| - 2] == h[|h| - 1] - h[|h| - 2]
  {
    if |h| > 1 then
      var prev := h[|h| - 2];
      if prev == 0.0 then None else Some((h[|h| - 1] - prev) / prev)
    else Some(0.0)
  }

  /** With a positive previous price, momentum clears a threshold exactly when the
      newest price is at least (1 + threshold) times the previous one. */
  lemma GainThreshold(prev: real, cur: real, threshold: real)
    requires prev > 0.0
    ensures PercentGain([prev, cur]).Some?
    ensures PercentGain([prev, cur]).value >= threshold <==> cur >= prev * (1.0 + threshold)
  {
    var g := (cur - prev) / prev;
    assert g * prev == cur - prev;
    if g >= threshold {
      assert g * prev >= threshold * prev;
    } else {
      assert g * prev < threshold * prev;
    }
  }

  /** A rise from 100 to 100.2 is a gain of 0.2%, which clears a 0.1% threshold. */
  lemma GainExample()
    ensures PercentGain([100.0, 100.2]) == Some(0.002)
    ensures PercentGain([100.0, 100.2]).value >= 0.001
  {
  }
}
