/** The even spacing shared by the classic arrows and the direct routes: the transitions
    that leave through one edge, or that join the same two boxes, are placed at the
    (i + 1)-th of n points cutting an interval into n + 1 equal parts. */
module Spacing {

  /** `lo + w / (n + 1) + i * w / (n + 1)`: the position of rank i among n, counted from
      the low end of an interval of width w. The two terms add up to i + 1 steps of
      w / (n + 1). */
  function Spread(lo: real, span: real, rank: nat, count: nat): (p: real)
    ensures p == lo + (rank + 1) as real * (span / (count + 1) as real)
  {
    StepSum(span, rank as real, (count + 1) as real);
    lo + span / (count + 1) as real + rank as real * span / (count + 1) as real
  }

  /** `hi - w / (n + 1) - i * w / (n + 1)`: the same position counted from the high end,
      i + 1 steps of w / (n + 1) below it. */
  function SpreadBack(hi: real, span: real, rank: nat, count: nat): (p: real)
    ensures p == hi - (rank + 1) as real * (span / (count + 1) as real)
  {
    StepSum(span, rank as real, (count + 1) as real);
    hi - span / (count + 1) as real - rank as real * span / (count + 1) as real
  }

  /** One step plus r steps is r + 1 steps. */
  lemma StepSum(span: real, r: real, d: real)
    requires d > 0.0
    ensures span / d + r * span / d == (r + 1.0) * (span / d)
  {
    var step := span / d;
    assert step * d == span;
    assert r * span / d == r * step by {
      assert (r * step) * d == r * (step * d) == r * span;
    }
  }

  /** Ranks 0 .. count - 1 fall inside the interval, strictly when it has positive width. */
  lemma SpreadBounds(lo: real, span: real, rank: nat, count: nat)
    requires rank < count && span >= 0.0
    ensures lo <= Spread(lo, span, rank, count) <= lo + span
    ensures lo - span <= SpreadBack(lo, span, rank, count) <= lo
    ensures span > 0.0 ==> lo < Spread(lo, span, rank, count) < lo + span
    ensures span > 0.0 ==> lo - span < SpreadBack(lo, span, rank, count) < lo
  {
    var d := (count + 1) as real;
    var step := span / d;
    var k := (rank + 1) as real;
    assert step >= 0.0;
    assert k <= count as real;
    assert k * step <= count as real * step;
    assert count as real * step + step == span by {
      assert step * d == span;
    }
    if span > 0.0 {
      assert step > 0.0;
      assert k * step > 0.0;
    }
  }

  /** A higher rank lies further from the end the positions are counted from, so distinct
      ranks give distinct positions when the interval has positive width. */
  lemma SpreadMonotone(lo: real, span: real, r1: nat, r2: nat, count: nat)
    requires r1 < r2 && span > 0.0
    ensures Spread(lo, span, r1, count) < Spread(lo, span, r2, count)
    ensures SpreadBack(lo, span, r2, count) < SpreadBack(lo, span, r1, count)
  {
    var step := span / (count + 1) as real;
    assert step > 0.0;
    var k1, k2 := (r1 + 1) as real, (r2 + 1) as real;
    assert k2 * step - k1 * step == (k2 - k1) * step;
    assert (k2 - k1) * step > 0.0;
  }

  /** A single item sits at the middle of the interval. */
  lemma SpreadSingle(lo: real, hi: real)
    ensures Spread(lo, hi - lo, 0, 1) == (lo + hi) / 2.0
  {
  }

  /** Distinct ranks give distinct positions in an interval of positive width. */
  lemma SpreadDistinct(lo: real, span: real, r1: nat, r2: nat, count: nat)
    requires r1 != r2 && span > 0.0
    ensures Spread(lo, span, r1, count) != Spread(lo, span, r2, count)
  {
    if r1 < r2 {
      SpreadMonotone(lo, span, r1, r2, count);
    } else {
      SpreadMonotone(lo, span, r2, r1, count);
    }
  }

  /** The position of rank i of n along the interval [lo, hi], counted from lo when
      fromLow holds and from hi otherwise. */
  function Along(lo: real, hi: real, fromLow: bool, rank: nat, count: nat): real {
    if fromLow then Spread(lo, hi - lo, rank, count) else SpreadBack(hi, hi - lo, rank, count)
  }

  /** The position is (rank + 1) / (count + 1) of the way from the chosen end, strictly
      inside a proper interval for every rank below count. */
  lemma AlongInside(lo: real, hi: real, fromLow: bool, rank: nat, count: nat)
    ensures var k, step := (rank + 1) as real, (hi - lo) / (count + 1) as real;
            Along(lo, hi, fromLow, rank, count) == if fromLow then lo + k * step else hi - k * step
    ensures rank < count && lo < hi ==> lo < Along(lo, hi, fromLow, rank, count) < hi
  {
    if rank < count && lo < hi {
      SpreadBounds(lo, hi - lo, rank, count);
      SpreadBounds(hi, hi - lo, rank, count);
    }
  }
}
