/** The fallback smooth scroll: progress is the elapsed fraction of the
    duration capped at 1, eased by p * (2 - p), and the position is the
    start moved toward the end by the eased fraction; and the linear
    interpolation helper. */
module Scrolling {

  import opened RealArith

  /** lerp: start moved toward end by the given fraction of the way. */
  function Lerp(start: real, end: real, factor: real): (r: real)
    ensures r - start == (end - start) * factor
    ensures factor == 0.0 ==> r == start
    ensures factor == 1.0 ==> r == end
  {
    start + (end - start) * factor
  }

  /** For a fraction in [0, 1], the interpolated point lies between the two
      end points. */
  lemma LerpBetween(start: real, end: real, factor: real)
    requires 0.0 <= factor <= 1.0
    ensures start <= end ==> start <= Lerp(start, end, factor) <= end
    ensures end <= start ==> end <= Lerp(start, end, factor) <= start
  {
    var d := end - start;
    var m := d * factor;
    ScaleByFraction(d, factor);
    if start <= end {
      calc { start; <= start + m; <= start + d; == end; }
    } else {
      calc { end; == start + d; <= start + m; <= start; }
    }
  }

  /** A larger fraction moves the interpolated point further toward end. */
  lemma LerpMonotone(start: real, end: real, f1: real, f2: real)
    requires f1 <= f2
    ensures start <= end ==> Lerp(start, end, f1) <= Lerp(start, end, f2)
    ensures end <= start ==> Lerp(start, end, f2) <= Lerp(start, end, f1)
  {
    if start <= end {
      var d := end - start;
      MultiplyBelow(d, f1, f2);
      calc {
        Lerp(start, end, f1);
        == start + d * f1;
        <= start + d * f2;
        == Lerp(start, end, f2);
      }
    } else {
      var d := start - end;
      MultiplyBelow(d, f1, f2);
      assert (end - start) * f1 == -(d * f1) by {
        calc { (end - start) * f1; == (-d) * f1; == -(d * f1); }
      }
      assert (end - start) * f2 == -(d * f2) by {
        calc { (end - start) * f2; == (-d) * f2; == -(d * f2); }
      }
      calc {
        Lerp(start, end, f2);
        == start - d * f2;
        <= start - d * f1;
        == Lerp(start, end, f1);
      }
    }
  }

  /** Math.min(elapsed / duration, 1). */
  function Progress(elapsed: real, duration: real): (p: real)
    requires 0.0 < duration
    ensures p <= 1.0
    ensures p == 1.0 <==> elapsed >= duration
    ensures 0.0 <= elapsed ==> 0.0 <= p
    ensures p < 1.0 ==> p * duration == elapsed
  {
    var q := elapsed / duration;
    if q < 1.0 then q else 1.0
  }

  /** The ease-out curve p * (2 - p). */
  function Ease(p: real): real
  {
    p * (2.0 - p)
  }

  /** 1 - Ease(p) is the square of the remaining distance 1 - p. */
  lemma EaseComplement(p: real)
    ensures Ease(p) == 1.0 - (1.0 - p) * (1.0 - p)
  {
  }

  /** The curve keeps [0, 1] in [0, 1], fixes both ends, and stays above
      the straight line: scrolling decelerates. */
  lemma EaseBounds(p: real)
    requires 0.0 <= p <= 1.0
    ensures 0.0 <= Ease(p) <= 1.0
    ensures p <= Ease(p)
  {
    ScaleByFraction(p, 1.0 - p);
    SquareNonNegative(1.0 - p);
    calc { Ease(p); == p + p * (1.0 - p); }
    EaseComplement(p);
  }

  /** The curve reaches 1 only at p == 1. */
  lemma EaseOne(p: real)
    ensures Ease(p) == 1.0 <==> p == 1.0
  {
    if p != 1.0 {
      var q := 1.0 - p;
      assert q != 0.0;
      assert 0.0 < q * q by {
        SquareNonNegative(q);
      }
      calc {
        Ease(p);
        == { EaseComplement(p); }
        1.0 - q * q;
        < 1.0;
      }
    }
  }

  /** On [0, 1] the curve is increasing, strictly so: later frames are
      never behind earlier ones. */
  lemma EaseMonotone(a: real, b: real)
    requires 0.0 <= a <= b <= 1.0
    ensures Ease(a) <= Ease(b)
    ensures a < b ==> Ease(a) < Ease(b)
  {
    calc { Ease(b) - Ease(a); == (b - a) * (2.0 - a - b); }
    MultiplyBelow(b - a, 0.0, 2.0 - a - b);
    calc { 0.0; == (b - a) * 0.0; }
    if a < b {
      PositiveProduct(b - a, 2.0 - a - b);
    }
  }

  /** A later frame is never less far along. */
  lemma ProgressMonotone(e1: real, e2: real, duration: real)
    requires 0.0 < duration && e1 <= e2
    ensures Progress(e1, duration) <= Progress(e2, duration)
  {
    var p1 := Progress(e1, duration);
    var p2 := Progress(e2, duration);
    if p2 < p1 {
      assert p2 < 1.0;
      MultiplyBelow(duration, p2, p1);
      calc {
        e2;
        == p2 * duration;
        == duration * p2;
        < duration * p1;
        == p1 * duration;
        == e1;
      }
      assert false;
    }
  }

  /** The scroll position of a frame drawn elapsed milliseconds after the
      start: start + (end - start) * ease. */
  function ScrollPosition(start: real, end: real, elapsed: real, duration: real): real
    requires 0.0 < duration
  {
    Lerp(start, end, Ease(Progress(elapsed, duration)))
  }

  /** The first frame is at the start; from the duration on every frame is
      exactly at the end, which is why the animation stops there. */
  lemma ScrollEnds(start: real, end: real, elapsed: real, duration: real)
    requires 0.0 < duration
    ensures elapsed == 0.0 ==> ScrollPosition(start, end, elapsed, duration) == start
    ensures elapsed >= duration ==> ScrollPosition(start, end, elapsed, duration) == end
  {
  }

  /** While the animation runs the position lies between start and end,
      and it moves monotonically toward the end. */
  lemma ScrollBetween(start: real, end: real, e1: real, e2: real, duration: real)
    requires 0.0 < duration && 0.0 <= e1 <= e2
    ensures var y1 := ScrollPosition(start, end, e1, duration);
      var y2 := ScrollPosition(start, end, e2, duration);
      && (start <= end ==> start <= y1 <= y2 <= end)
      && (end <= start ==> end <= y2 <= y1 <= start)
  {
    var p1 := Progress(e1, duration);
    var p2 := Progress(e2, duration);
    ProgressMonotone(e1, e2, duration);
    EaseBounds(p1);
    EaseBounds(p2);
    EaseMonotone(p1, p2);
    LerpBetween(start, end, Ease(p1));
    LerpBetween(start, end, Ease(p2));
    LerpMonotone(start, end, Ease(p1), Ease(p2));
  }
}
