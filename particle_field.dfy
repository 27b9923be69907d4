/** The cursor-reactive particle background of the portfolio page.

    Each animation frame moves every particle toward the pointer (when it is
    near) or back toward its rest position, adds an ambient drift, wraps it
    around the viewport, and then draws a connection line between every pair
    of particles that are close to each other.  Math.random, the distance
    Math.sqrt(dx * dx + dy * dy), Math.sin, Math.cos and Date.now are
    parameters of the model. */
module ParticleField {

  import opened RealArith

  /** A value Math.random() can return. */
  type Unit = r: real | 0.0 <= r < 1.0

  /** One particle record, with the source's field names. */
  datatype Particle = Particle(
    x: real, y: real,
    baseX: real, baseY: real,
    size: real,
    density: real,
    opacity: real,
    speedX: real, speedY: real)

  /** One stroked connection line: from particle i (already moved this frame)
      to particle j (not yet moved this frame), with its stroke alpha. */
  datatype Line = Line(i: nat, j: nat, alpha: real)

  const AttractionRadius: real := 150.0
  const ConnectionRadius: real := 100.0
  const MinOpacity: real := 0.2
  const MaxOpacity: real := 0.8
  const WideViewport: real := 768.0

  function Min(a: real, b: real): real { if a <= b then a else b }
  function Max(a: real, b: real): real { if a >= b then a else b }

  /** What the model relies on about Math.sqrt(dx * dx + dy * dy), taken as
      one primitive norm(dx, dy): it is the non-negative square root of the
      sum of squares. */
  ghost predicate IsNorm(norm: (real, real) -> real)
  {
    forall dx, dy :: 0.0 <= norm(dx, dy) && norm(dx, dy) * norm(dx, dy) == dx * dx + dy * dy
  }

  /** Euclidean distance of an offset, as the source computes it. */
  function Distance(dx: real, dy: real, norm: (real, real) -> real): real
  {
    norm(dx, dy)
  }

  /** The computed distance is the non-negative root of dx² + dy². */
  lemma DistanceSquared(dx: real, dy: real, norm: (real, real) -> real)
    requires IsNorm(norm)
    ensures 0.0 <= Distance(dx, dy, norm)
    ensures Distance(dx, dy, norm) * Distance(dx, dy, norm) == dx * dx + dy * dy
  {
  }

  /** Reference notion of "closer than radius", free of square roots. */
  ghost predicate WithinRadius(dx: real, dy: real, radius: real)
  {
    dx * dx + dy * dy < radius * radius
  }

  /** The distance the source computes is below a positive radius exactly
      when the squared offset is below the radius squared. */
  lemma DistanceBelow(dx: real, dy: real, radius: real, norm: (real, real) -> real)
    requires IsNorm(norm) && 0.0 < radius
    ensures Distance(dx, dy, norm) < radius <==> WithinRadius(dx, dy, radius)
  {
    DistanceSquared(dx, dy, norm);
    RootBelowRadius(dx * dx + dy * dy, Distance(dx, dy, norm), radius);
  }

  // ---------------------------------------------------------------------
  // Initialisation

  /** Number of particles created for a viewport of the given width. */
  function InitialCount(innerWidth: real): (n: nat)
    ensures n == 150 || n == 75
    ensures n == 150 <==> innerWidth > WideViewport
  {
    if innerWidth > WideViewport then 150 else 75
  }

  /** A random coordinate in [0, extent), or 0 on a zero extent. */
  function Scale(r: Unit, extent: real): (v: real)
    ensures 0.0 <= extent ==> 0.0 <= v <= extent
    ensures 0.0 < extent ==> v < extent
  {
    ScaleBounds(r, extent);
    r * extent
  }

  lemma ScaleBounds(r: Unit, extent: real)
    ensures 0.0 <= extent ==> 0.0 <= r * extent <= extent
    ensures 0.0 < extent ==> r * extent < extent
  {
    if 0.0 <= extent {
      MultiplyBelow(extent, r, 1.0);
      MultiplyBelow(extent, 0.0, r);
      calc { 0.0; == extent * 0.0; <= extent * r; == r * extent; }
      calc { r * extent; == extent * r; <= extent * 1.0; == extent; }
      if 0.0 < extent {
        calc { r * extent; == extent * r; < extent * 1.0; == extent; }
      }
    }
  }

  /** What a freshly created particle satisfies in a w by h viewport. */
  ghost predicate Spawned(p: Particle, w: real, h: real)
  {
    && 0.0 <= p.x <= w && 0.0 <= p.y <= h
    && 0.0 <= p.baseX <= w && 0.0 <= p.baseY <= h
    && (0.0 < w ==> p.x < w && p.baseX < w)
    && (0.0 < h ==> p.y < h && p.baseY < h)
    && 1.0 <= p.size < 4.0
    && 1.0 <= p.density < 31.0
    && MinOpacity <= p.opacity < 0.7
    && -0.25 <= p.speedX < 0.25 && -0.25 <= p.speedY < 0.25
  }

  /** The particle built from the nine random draws rand(t) .. rand(t + 8),
      taken in the order the source's object literal calls Math.random. */
  function Spawn(rand: nat -> Unit, t: nat, w: real, h: real): (p: Particle)
    requires 0.0 <= w && 0.0 <= h
    ensures Spawned(p, w, h)
  {
    Particle(
      x := Scale(rand(t), w),
      y := Scale(rand(t + 1), h),
      baseX := Scale(rand(t + 2), w),
      baseY := Scale(rand(t + 3), h),
      size := rand(t + 4) * 3.0 + 1.0,
      density := rand(t + 5) * 30.0 + 1.0,
      opacity := rand(t + 6) * 0.5 + 0.2,
      speedX := (rand(t + 7) - 0.5) * 0.5,
      speedY := (rand(t + 8) - 0.5) * 0.5)
  }

  // ---------------------------------------------------------------------
  // One particle, one frame

  /** Attraction strength at distance d inside the attraction radius. */
  function Force(d: real): (f: real)
    requires 0.0 <= d < AttractionRadius
    ensures 0.0 < f <= 1.0
    ensures f == 1.0 <==> d == 0.0
  {
    (AttractionRadius - d) / AttractionRadius
  }

  /** The near branch: move toward the pointer (mx, my), raise the opacity. */
  function Attract(p: Particle, mx: real, my: real, d: real): (q: Particle)
    requires 0.0 <= d < AttractionRadius
    ensures q.x - mx == (1.0 - Force(d) / 100.0) * (p.x - mx)
    ensures q.y - my == (1.0 - Force(d) / 100.0) * (p.y - my)
    ensures 0.99 <= 1.0 - Force(d) / 100.0 < 1.0
    ensures q.opacity == MinOpacity + Force(d) * 0.6
    ensures MinOpacity < q.opacity <= MaxOpacity
    ensures q == p.(x := q.x, y := q.y, opacity := q.opacity)
  {
    var dx := mx - p.x;
    var dy := my - p.y;
    var force := Force(d);
    var attraction := force * 0.5;
    p.(x := p.x + dx * attraction * 0.02,
       y := p.y + dy * attraction * 0.02,
       opacity := Min(MaxOpacity, MinOpacity + force * 0.6))
  }

  /** The far branch: relax toward the rest position, let the opacity decay. */
  function Relax(p: Particle): (q: Particle)
    ensures q.x - p.baseX == 0.995 * (p.x - p.baseX)
    ensures q.y - p.baseY == 0.995 * (p.y - p.baseY)
    ensures MinOpacity <= q.opacity
    ensures MinOpacity <= p.opacity ==> q.opacity <= p.opacity
    ensures MinOpacity + 0.01 <= p.opacity ==> q.opacity == p.opacity - 0.01
    ensures p.opacity <= MinOpacity + 0.01 ==> q.opacity == MinOpacity
    ensures q == p.(x := q.x, y := q.y, opacity := q.opacity)
  {
    p.(x := p.x + (p.baseX - p.x) * 0.005,
       y := p.y + (p.baseY - p.y) * 0.005,
       opacity := Max(MinOpacity, p.opacity - 0.01))
  }

  /** The branch choice for pointer (mx, my): attraction when the computed
      distance is below the attraction radius, relaxation otherwise. */
  function Steer(p: Particle, mx: real, my: real, norm: (real, real) -> real): (q: Particle)
    requires IsNorm(norm)
    ensures var d := Distance(mx - p.x, my - p.y, norm);
      && (d < AttractionRadius ==> q == Attract(p, mx, my, d))
      && (AttractionRadius <= d ==> q == Relax(p))
  {
    var d := Distance(mx - p.x, my - p.y, norm);
    DistanceSquared(mx - p.x, my - p.y, norm);
    if d < AttractionRadius then Attract(p, mx, my, d) else Relax(p)
  }

  /** The attraction branch is taken exactly when the pointer is within the
      attraction radius, for every norm function satisfying IsNorm. */
  lemma SteerChoice(p: Particle, mx: real, my: real, norm: (real, real) -> real)
    requires IsNorm(norm)
    ensures WithinRadius(mx - p.x, my - p.y, AttractionRadius) ==>
      Steer(p, mx, my, norm) == Attract(p, mx, my, Distance(mx - p.x, my - p.y, norm))
    ensures !WithinRadius(mx - p.x, my - p.y, AttractionRadius) ==> Steer(p, mx, my, norm) == Relax(p)
  {
    DistanceBelow(mx - p.x, my - p.y, AttractionRadius, norm);
  }

  /** Toroidal wrap of one coordinate against a viewport extent, in the
      source's order: below 0 jumps to the extent, beyond the extent to 0. */
  function Wrap(v: real, extent: real): (r: real)
    ensures 0.0 <= extent ==> 0.0 <= r <= extent
    ensures 0.0 <= v <= extent ==> r == v
    ensures v < 0.0 <= extent ==> r == extent
    ensures 0.0 <= extent < v ==> r == 0.0
  {
    var a := if v < 0.0 then extent else v;
    if a > extent then 0.0 else a
  }

  /** One frame's update of one particle: steer, ambient drift at time now,
      wrap against the w by h viewport. */
  function Advance(p: Particle, mx: real, my: real, w: real, h: real,
                   now: real, sin: real -> real, cos: real -> real,
                   norm: (real, real) -> real): (q: Particle)
    requires IsNorm(norm)
    ensures q == p.(x := q.x, y := q.y, opacity := q.opacity)
    ensures 0.0 <= w ==> 0.0 <= q.x <= w
    ensures 0.0 <= h ==> 0.0 <= q.y <= h
  {
    var s := Steer(p, mx, my, norm);
    var driftX := s.x + sin(now * 0.001 + p.density) * 0.3;
    var driftY := s.y + cos(now * 0.001 + p.density) * 0.3;
    s.(x := Wrap(driftX, w), y := Wrap(driftY, h))
  }

  /** A frame leaves opacity as the steering branch set it: at least 0.2,
      and at most 0.8 when it was at most 0.8 before. */
  lemma AdvanceOpacity(p: Particle, mx: real, my: real, w: real, h: real,
                       now: real, sin: real -> real, cos: real -> real, norm: (real, real) -> real)
    requires IsNorm(norm)
    ensures Advance(p, mx, my, w, h, now, sin, cos, norm).opacity == Steer(p, mx, my, norm).opacity
    ensures MinOpacity <= Advance(p, mx, my, w, h, now, sin, cos, norm).opacity
    ensures p.opacity <= MaxOpacity ==> Advance(p, mx, my, w, h, now, sin, cos, norm).opacity <= MaxOpacity
  {
  }

  /** A particle sitting on the pointer reaches full opacity. */
  lemma PointerOnParticle(p: Particle, w: real, h: real, now: real,
                          sin: real -> real, cos: real -> real, norm: (real, real) -> real)
    requires IsNorm(norm)
    ensures Advance(p, p.x, p.y, w, h, now, sin, cos, norm).opacity == MaxOpacity
  {
    var d := Distance(0.0, 0.0, norm);
    DistanceSquared(0.0, 0.0, norm);
    ZeroRoot(d);
    AdvanceOpacity(p, p.x, p.y, w, h, now, sin, cos, norm);
  }

  /** Opacity after k consecutive far-away frames (drift and wrap do not
      change the opacity). */
  function RelaxedOpacity(opacity: real, k: nat): real
  {
    if k == 0 then opacity else Max(MinOpacity, RelaxedOpacity(opacity, k - 1) - 0.01)
  }

  /** Away from the pointer the opacity falls by 0.01 per frame and floors at
      the minimum opacity. */
  lemma {:induction false} FarOpacityDecay(opacity: real, k: nat)
    requires MinOpacity <= opacity
    ensures RelaxedOpacity(opacity, k) == Max(MinOpacity, opacity - 0.01 * k as real)
    ensures RelaxedOpacity(opacity, k) <= opacity
  {
    if k > 0 {
      FarOpacityDecay(opacity, k - 1);
    }
  }

  /** k successive frames of one particle, with the pointer outside the
      attraction radius at each of them, bring its opacity to the closed form
      of RelaxedOpacity: 0.01 less per frame, never below the minimum. */
  lemma {:induction false} FarFrames(ps: seq<Particle>, mx: seq<real>, my: seq<real>, now: seq<real>,
                                     w: real, h: real, sin: real -> real, cos: real -> real,
                                     norm: (real, real) -> real, k: nat)
    requires IsNorm(norm)
    requires |ps| == k + 1 && |mx| == k && |my| == k && |now| == k
    requires forall t :: 0 <= t < k ==> ps[t + 1] == Advance(ps[t], mx[t], my[t], w, h, now[t], sin, cos, norm)
    requires forall t :: 0 <= t < k ==> !WithinRadius(mx[t] - ps[t].x, my[t] - ps[t].y, AttractionRadius)
    ensures ps[k].opacity == RelaxedOpacity(ps[0].opacity, k)
    ensures MinOpacity <= ps[0].opacity ==>
      ps[k].opacity == Max(MinOpacity, ps[0].opacity - 0.01 * k as real) <= ps[0].opacity
  {
    if k > 0 {
      var q := ps[k - 1];
      FarFrames(ps[..k], mx[..k - 1], my[..k - 1], now[..k - 1], w, h, sin, cos, norm, k - 1);
      SteerChoice(q, mx[k - 1], my[k - 1], norm);
      AdvanceOpacity(q, mx[k - 1], my[k - 1], w, h, now[k - 1], sin, cos, norm);
    }
    if MinOpacity <= ps[0].opacity {
      FarOpacityDecay(ps[0].opacity, k);
    }
  }

  // ---------------------------------------------------------------------
  // Connection lines

  /** Stroke alpha of a connection line at distance d. */
  function LineAlpha(d: real): (a: real)
    ensures 0.0 <= d < ConnectionRadius ==> 0.0 < a <= 0.3
    ensures d == 0.0 ==> a == 0.3
  {
    (ConnectionRadius - d) / ConnectionRadius * 0.3
  }

  function PairDistance(a: Particle, b: Particle, norm: (real, real) -> real): real
  {
    Distance(a.x - b.x, a.y - b.y, norm)
  }

  ghost predicate Close(a: Particle, b: Particle)
  {
    WithinRadius(a.x - b.x, a.y - b.y, ConnectionRadius)
  }

  /** Lines from particle p, standing at index i, to olds[i+1 .. hi). */
  function Row(i: nat, p: Particle, olds: seq<Particle>, hi: nat, norm: (real, real) -> real): seq<Line>
    requires hi <= |olds|
  {
    if hi <= i + 1 then []
    else
      var d := PairDistance(p, olds[hi - 1], norm);
      Row(i, p, olds, hi - 1, norm)
        + (if d < ConnectionRadius then [Line(i, hi - 1, LineAlpha(d))] else [])
  }

  /** Lines drawn for rows 0 .. k-1 of a frame, where news holds the moved
      particles and olds the particles as the frame found them. */
  function Lines(news: seq<Particle>, olds: seq<Particle>, k: nat, norm: (real, real) -> real): seq<Line>
    requires k <= |news| && k <= |olds|
  {
    if k == 0 then [] else Lines(news, olds, k - 1, norm) + Row(k - 1, news[k - 1], olds, |olds|, norm)
  }

  /** The line that the pair (i, j) gets when it is close enough. */
  function PairLine(news: seq<Particle>, olds: seq<Particle>, i: nat, j: nat, norm: (real, real) -> real): Line
    requires i < |news| && j < |olds|
  {
    Line(i, j, LineAlpha(PairDistance(news[i], olds[j], norm)))
  }

  /** Lexicographic order on the index pairs of lines. */
  predicate Before(a: Line, b: Line)
  {
    a.i < b.i || (a.i == b.i && a.j < b.j)
  }

  ghost predicate StrictlyOrdered(ls: seq<Line>)
  {
    forall a, b :: 0 <= a < b < |ls| ==> Before(ls[a], ls[b])
  }

  /** The computed pair distance is below the connection radius exactly when
      the pair is close. */
  lemma CloseIff(a: Particle, b: Particle, norm: (real, real) -> real)
    requires IsNorm(norm)
    ensures PairDistance(a, b, norm) < ConnectionRadius <==> Close(a, b)
  {
    DistanceBelow(a.x - b.x, a.y - b.y, ConnectionRadius, norm);
  }

  lemma {:induction false} RowSound(i: nat, p: Particle, olds: seq<Particle>, hi: nat, norm: (real, real) -> real)
    requires hi <= |olds|
    ensures forall l :: l in Row(i, p, olds, hi, norm) ==>
      l.i == i && i < l.j < hi && PairDistance(p, olds[l.j], norm) < ConnectionRadius
      && l.alpha == LineAlpha(PairDistance(p, olds[l.j], norm))
  {
    if hi > i + 1 {
      RowSound(i, p, olds, hi - 1, norm);
    }
  }

  lemma {:induction false} RowComplete(i: nat, p: Particle, olds: seq<Particle>, hi: nat, j: nat, norm: (real, real) -> real)
    requires hi <= |olds|
    requires i < j < hi && PairDistance(p, olds[j], norm) < ConnectionRadius
    ensures Line(i, j, LineAlpha(PairDistance(p, olds[j], norm))) in Row(i, p, olds, hi, norm)
  {
    if j < hi - 1 {
      RowComplete(i, p, olds, hi - 1, j, norm);
    }
  }

  lemma {:induction false} RowOrdered(i: nat, p: Particle, olds: seq<Particle>, hi: nat, norm: (real, real) -> real)
    requires hi <= |olds|
    ensures StrictlyOrdered(Row(i, p, olds, hi, norm))
    ensures forall l :: l in Row(i, p, olds, hi, norm) ==> l.i == i && l.j < hi
  {
    if hi > i + 1 {
      RowOrdered(i, p, olds, hi - 1, norm);
    }
  }

  /** A row reads only the particles after its own index. */
  lemma {:induction false} RowAgree(i: nat, p: Particle, s: seq<Particle>, t: seq<Particle>, hi: nat, norm: (real, real) -> real)
    requires hi <= |s| && hi <= |t|
    requires forall k :: i < k < hi ==> s[k] == t[k]
    ensures Row(i, p, s, hi, norm) == Row(i, p, t, hi, norm)
  {
    if hi > i + 1 {
      RowAgree(i, p, s, t, hi - 1, norm);
    }
  }

  /** Writing the next moved particle over the front of the untouched rest. */
  lemma UpdateFront(before: seq<Particle>, moved: seq<Particle>, olds: seq<Particle>, p: Particle)
    requires |moved| < |olds| && before == moved + olds[|moved|..]
    ensures before[|moved|] == olds[|moved|]
    ensures before[|moved| := p] == (moved + [p]) + olds[|moved| + 1..]
  {
  }

  /** Past the updated front, the array still holds the particles the frame
      found. */
  lemma TailAgrees(front: seq<Particle>, olds: seq<Particle>)
    requires |front| <= |olds|
    ensures forall k :: |front| <= k < |olds| ==> (front + olds[|front|..])[k] == olds[k]
  {
  }

  /** Every line of a frame joins a close pair i < j, measured from the moved
      particle i to the unmoved particle j, with alpha in (0, 0.3]. */
  lemma {:induction false} LinesSound(news: seq<Particle>, olds: seq<Particle>, k: nat, norm: (real, real) -> real)
    requires IsNorm(norm)
    requires |news| == |olds| && k <= |news|
    ensures forall l :: l in Lines(news, olds, k, norm) ==>
      l.i < k && l.i < l.j < |olds| && Close(news[l.i], olds[l.j])
      && l == PairLine(news, olds, l.i, l.j, norm) && 0.0 < l.alpha <= 0.3
  {
    if k > 0 {
      LinesSound(news, olds, k - 1, norm);
      var row := Row(k - 1, news[k - 1], olds, |olds|, norm);
      assert Lines(news, olds, k, norm) == Lines(news, olds, k - 1, norm) + row;
      RowSound(k - 1, news[k - 1], olds, |olds|, norm);
      forall l | l in row
        ensures Close(news[l.i], olds[l.j]) && 0.0 < l.alpha <= 0.3
      {
        var a, b := news[l.i], olds[l.j];
        CloseIff(a, b, norm);
        DistanceSquared(a.x - b.x, a.y - b.y, norm);
      }
    }
  }

  /** Every close pair i < j of a frame gets its line. */
  lemma {:induction false} LinesComplete(news: seq<Particle>, olds: seq<Particle>, k: nat, i: nat, j: nat, norm: (real, real) -> real)
    requires IsNorm(norm)
    requires |news| == |olds| && k <= |news|
    requires i < k && i < j < |olds| && Close(news[i], olds[j])
    ensures PairLine(news, olds, i, j, norm) in Lines(news, olds, k, norm)
  {
    CloseIff(news[i], olds[j], norm);
    RowComplete(i, news[i], olds, |olds|, j, norm);
    RowInLines(news, olds, k, i, PairLine(news, olds, i, j, norm), norm);
  }

  /** Every line of row i appears among the lines of rows 0 .. k-1. */
  lemma {:induction false} RowInLines(news: seq<Particle>, olds: seq<Particle>, k: nat, i: nat,
                                      x: Line, norm: (real, real) -> real)
    requires |news| == |olds| && i < k <= |news|
    requires x in Row(i, news[i], olds, |olds|, norm)
    ensures x in Lines(news, olds, k, norm)
    decreases k
  {
    var rest := Lines(news, olds, k - 1, norm);
    var row := Row(k - 1, news[k - 1], olds, |olds|, norm);
    assert Lines(news, olds, k, norm) == rest + row;
    if i < k - 1 {
      RowInLines(news, olds, k - 1, i, x, norm);
    }
    InConcat(x, rest, row);
  }

  /** Whatever is in either part is in the concatenation. */
  lemma InConcat<T>(x: T, a: seq<T>, b: seq<T>)
    ensures x in a ==> x in a + b
    ensures x in b ==> x in a + b
  {
  }

  /** Lines come in strictly increasing (i, j) order, so no pair is drawn twice. */
  lemma {:induction false} LinesOrdered(news: seq<Particle>, olds: seq<Particle>, k: nat, norm: (real, real) -> real)
    requires |news| == |olds| && k <= |news|
    ensures StrictlyOrdered(Lines(news, olds, k, norm))
    ensures forall l :: l in Lines(news, olds, k, norm) ==> l.i < k
  {
    if k > 0 {
      LinesOrdered(news, olds, k - 1, norm);
      RowOrdered(k - 1, news[k - 1], olds, |olds|, norm);
      var front := Lines(news, olds, k - 1, norm);
      var row := Row(k - 1, news[k - 1], olds, |olds|, norm);
      assert Lines(news, olds, k, norm) == front + row;
      OrderedConcat(front, row, k - 1);
    }
  }

  /** Rows with smaller indices followed by a row of index m stay ordered. */
  lemma OrderedConcat(front: seq<Line>, row: seq<Line>, m: nat)
    requires StrictlyOrdered(front) && StrictlyOrdered(row)
    requires forall l :: l in front ==> l.i < m
    requires forall l :: l in row ==> l.i == m
    ensures StrictlyOrdered(front + row)
    ensures forall l :: l in front + row ==> l.i <= m
  {
    var all := front + row;
    forall a, b | 0 <= a < b < |all| ensures Before(all[a], all[b]) {
      if b < |front| {
        assert all[a] == front[a] && all[b] == front[b];
      } else if a >= |front| {
        assert all[a] == row[a - |front|] && all[b] == row[b - |front|];
      } else {
        assert all[a] == front[a] && all[a] in front;
        assert all[b] == row[b - |front|] && all[b] in row;
      }
    }
  }

  /** Rows 0 .. k-1 read only the first k moved particles. */
  lemma {:induction false} LinesPrefix(a: seq<Particle>, b: seq<Particle>, olds: seq<Particle>, k: nat, norm: (real, real) -> real)
    requires k <= |a| && k <= |b| && k <= |olds|
    requires forall n :: 0 <= n < k ==> a[n] == b[n]
    ensures Lines(a, olds, k, norm) == Lines(b, olds, k, norm)
  {
    if k > 0 {
      LinesPrefix(a, b, olds, k - 1, norm);
    }
  }

  /** Moving one more particle adds its row to the frame's lines. */
  lemma LinesStep(moved: seq<Particle>, p: Particle, olds: seq<Particle>, norm: (real, real) -> real)
    requires |moved| < |olds|
    ensures Lines(moved + [p], olds, |moved| + 1, norm)
      == Lines(moved, olds, |moved|, norm) + Row(|moved|, p, olds, |olds|, norm)
  {
    LinesPrefix(moved, moved + [p], olds, |moved|, norm);
  }

  /** The connection scan for the particle p at index i of the array: the
      source's inner loop over the particles after index i. */
  method ConnectRow(particles: array<Particle>, i: nat, p: Particle, norm: (real, real) -> real)
    returns (row: seq<Line>)
    requires i < particles.Length
    ensures row == Row(i, p, particles[..], particles.Length, norm)
  {
    row := [];
    var j := i + 1;
    while j < particles.Length
      invariant i + 1 <= j <= particles.Length
      invariant row == Row(i, p, particles[..], j, norm)
    {
      var other := particles[j];
      var d := PairDistance(p, other, norm);
      if d < ConnectionRadius {
        row := row + [Line(i, j, LineAlpha(d))];
      }
      j := j + 1;
    }
  }

  // ---------------------------------------------------------------------
  // The field

  ghost predicate OpacitiesInRange(ps: seq<Particle>)
  {
    forall k :: 0 <= k < |ps| ==> MinOpacity <= ps[k].opacity <= MaxOpacity
  }

  ghost predicate InViewport(ps: seq<Particle>, w: real, h: real)
  {
    forall k :: 0 <= k < |ps| ==> 0.0 <= ps[k].x <= w && 0.0 <= ps[k].y <= h
  }

  /** news is olds with every particle advanced for the same frame. */
  ghost predicate AdvancedAll(olds: seq<Particle>, news: seq<Particle>, mx: real, my: real,
                              w: real, h: real, now: real, sin: real -> real, cos: real -> real,
                              norm: (real, real) -> real)
    requires IsNorm(norm)
  {
    && |news| == |olds|
    && forall k :: 0 <= k < |olds| ==> news[k] == Advance(olds[k], mx, my, w, h, now, sin, cos, norm)
  }

  lemma AdvancedOneMore(olds: seq<Particle>, moved: seq<Particle>, p: Particle, mx: real, my: real,
                        w: real, h: real, now: real, sin: real -> real, cos: real -> real,
                        norm: (real, real) -> real)
    requires IsNorm(norm)
    requires |moved| < |olds|
    requires AdvancedAll(olds[..|moved|], moved, mx, my, w, h, now, sin, cos, norm)
    requires p == Advance(olds[|moved|], mx, my, w, h, now, sin, cos, norm)
    ensures AdvancedAll(olds[..|moved| + 1], moved + [p], mx, my, w, h, now, sin, cos, norm)
  {
  }

  /** One particle of a frame: writing the moved particle p at index
      |moved| extends the moved prefix by p and the lines by p's row. */
  lemma FrameStep(olds: seq<Particle>, moved: seq<Particle>, before: seq<Particle>, p: Particle,
                  row: seq<Line>, lines: seq<Line>, mx: real, my: real, w: real, h: real,
                  now: real, sin: real -> real, cos: real -> real, norm: (real, real) -> real)
    requires IsNorm(norm)
    requires |moved| < |olds| && before == moved + olds[|moved|..]
    requires AdvancedAll(olds[..|moved|], moved, mx, my, w, h, now, sin, cos, norm)
    requires lines == Lines(moved, olds, |moved|, norm)
    requires p == Advance(before[|moved|], mx, my, w, h, now, sin, cos, norm)
    requires row == Row(|moved|, p, before[|moved| := p], |olds|, norm)
    ensures before[|moved| := p] == (moved + [p]) + olds[|moved| + 1..]
    ensures AdvancedAll(olds[..|moved| + 1], moved + [p], mx, my, w, h, now, sin, cos, norm)
    ensures lines + row == Lines(moved + [p], olds, |moved| + 1, norm)
  {
    UpdateFront(before, moved, olds, p);
    var front := moved + [p];
    TailAgrees(front, olds);
    RowAgree(|moved|, p, front + olds[|moved| + 1..], olds, |olds|, norm);
    LinesStep(moved, p, olds, norm);
    AdvancedOneMore(olds, moved, p, mx, my, w, h, now, sin, cos, norm);
  }

  /** The particle loop after |moved| iterations: the moved particles are
      the advanced front of olds, and lines holds their rows. */
  ghost predicate Progressed(olds: seq<Particle>, moved: seq<Particle>, lines: seq<Line>,
                             mx: real, my: real, w: real, h: real, now: real,
                             sin: real -> real, cos: real -> real, norm: (real, real) -> real)
  {
    && IsNorm(norm) && |moved| <= |olds|
    && AdvancedAll(olds[..|moved|], moved, mx, my, w, h, now, sin, cos, norm)
    && lines == Lines(moved, olds, |moved|, norm)
  }

  /** Once every particle has moved, the loop has advanced the whole frame. */
  lemma ProgressedAll(olds: seq<Particle>, moved: seq<Particle>, lines: seq<Line>,
                      mx: real, my: real, w: real, h: real, now: real,
                      sin: real -> real, cos: real -> real, norm: (real, real) -> real)
    requires Progressed(olds, moved, lines, mx, my, w, h, now, sin, cos, norm)
    requires |moved| == |olds|
    ensures AdvancedAll(olds, moved, mx, my, w, h, now, sin, cos, norm)
    ensures lines == Lines(moved, olds, |olds|, norm)
  {
    assert olds[..|moved|] == olds;
  }

  /** A frame keeps opacities in [0.2, 0.8] and puts every particle inside
      the viewport. */
  lemma AdvancedRanges(olds: seq<Particle>, news: seq<Particle>, mx: real, my: real,
                       w: real, h: real, now: real, sin: real -> real, cos: real -> real,
                       norm: (real, real) -> real)
    requires IsNorm(norm)
    requires AdvancedAll(olds, news, mx, my, w, h, now, sin, cos, norm)
    ensures OpacitiesInRange(olds) ==> OpacitiesInRange(news)
    ensures 0.0 <= w && 0.0 <= h ==> InViewport(news, w, h)
  {
    forall k | 0 <= k < |olds|
      ensures olds[k].opacity <= MaxOpacity ==> MinOpacity <= news[k].opacity <= MaxOpacity
    {
      AdvanceOpacity(olds[k], mx, my, w, h, now, sin, cos, norm);
    }
  }

  /** The particle part of the page object: the particle array, the last
      pointer position, and whether a 2D drawing context was found. */
  class Field {
    const hasContext: bool
    var particles: array<Particle>
    var mouseX: real
    var mouseY: real

    /** Creating the page object: the pointer starts at (0, 0) and, when
        there is a drawing context, the particles are created for the
        current viewport from consecutive groups of nine random draws. */
    constructor (hasContext: bool, innerWidth: real, innerHeight: real, rand: nat -> Unit)
      requires 0.0 <= innerWidth && 0.0 <= innerHeight
      ensures this.hasContext == hasContext
      ensures mouseX == 0.0 && mouseY == 0.0
      ensures fresh(particles)
      ensures particles.Length == if hasContext then InitialCount(innerWidth) else 0
      ensures forall k :: 0 <= k < particles.Length ==>
        particles[k] == Spawn(rand, 9 * k, innerWidth, innerHeight)
      ensures OpacitiesInRange(particles[..])
    {
      this.hasContext := hasContext;
      mouseX, mouseY := 0.0, 0.0;
      var n := if hasContext then InitialCount(innerWidth) else 0;
      var a := new Particle[n];
      for i := 0 to n
        invariant forall k :: 0 <= k < i ==> a[k] == Spawn(rand, 9 * k, innerWidth, innerHeight)
      {
        a[i] := Spawn(rand, 9 * i, innerWidth, innerHeight);
      }
      particles := a;
    }

    /** A mouse move or the first touch point records the pointer. */
    method PointerMoved(x: real, y: real)
      modifies this`mouseX, this`mouseY
      ensures mouseX == x && mouseY == y
    {
      mouseX, mouseY := x, y;
    }

    /** The per-particle callback of a frame: move particle i, then collect
        its lines to the particles after it, as they still stand. */
    method MoveParticle(i: nat, w: real, h: real, now: real, sin: real -> real, cos: real -> real,
                        norm: (real, real) -> real) returns (p: Particle, row: seq<Line>)
      requires IsNorm(norm) && i < particles.Length
      modifies particles
      ensures p == Advance(old(particles[i]), mouseX, mouseY, w, h, now, sin, cos, norm)
      ensures particles[..] == old(particles[..])[i := p]
      ensures row == Row(i, p, particles[..], particles.Length, norm)
    {
      p := Advance(particles[i], mouseX, mouseY, w, h, now, sin, cos, norm);
      particles[i] := p;
      row := ConnectRow(particles, i, p, norm);
    }

    /** One iteration of the particle loop: particle |moved| is advanced
        and its row of lines is appended to those drawn so far. */
    method MoveNext(i: nat, ghost olds: seq<Particle>, ghost moved: seq<Particle>, lines: seq<Line>,
                    w: real, h: real, now: real, sin: real -> real, cos: real -> real,
                    norm: (real, real) -> real) returns (p: Particle, lines': seq<Line>)
      requires IsNorm(norm)
      requires i == |moved| < |olds| == particles.Length
      requires particles[..] == moved + olds[i..]
      requires Progressed(olds, moved, lines, mouseX, mouseY, w, h, now, sin, cos, norm)
      modifies particles
      ensures particles[..] == (moved + [p]) + olds[i + 1..]
      ensures Progressed(olds, moved + [p], lines', mouseX, mouseY, w, h, now, sin, cos, norm)
    {
      ghost var before := particles[..];
      var row;
      p, row := MoveParticle(i, w, h, now, sin, cos, norm);
      FrameStep(olds, moved, before, p, row, lines, mouseX, mouseY, w, h, now, sin, cos, norm);
      lines' := lines + row;
    }

    /** The particle loop of a frame: every particle is advanced in order,
        and each pair i < j is tested right after particle i has moved. */
    method MoveAll(w: real, h: real, now: real, sin: real -> real, cos: real -> real,
                   norm: (real, real) -> real) returns (lines: seq<Line>)
      requires IsNorm(norm)
      modifies particles
      ensures AdvancedAll(old(particles[..]), particles[..], mouseX, mouseY, w, h, now, sin, cos, norm)
      ensures lines == Lines(particles[..], old(particles[..]), particles.Length, norm)
    {
      lines := [];
      var n := particles.Length;
      ghost var olds := particles[..];
      ghost var moved: seq<Particle> := [];
      var i := 0;
      while i < n
        invariant 0 <= i <= n && |moved| == i
        invariant particles[..] == moved + olds[i..]
        invariant Progressed(olds, moved, lines, mouseX, mouseY, w, h, now, sin, cos, norm)
      {
        var p;
        p, lines := MoveNext(i, olds, moved, lines, w, h, now, sin, cos, norm);
        moved := moved + [p];
        i := i + 1;
      }
      assert moved == particles[..];
      ProgressedAll(olds, moved, lines, mouseX, mouseY, w, h, now, sin, cos, norm);
    }

    /** One animation frame for a w by h viewport at time now: without a
        drawing context or particles nothing happens; otherwise every
        particle is advanced and the lines are those of Lines(new state,
        old state). */
    method Step(w: real, h: real, now: real, sin: real -> real, cos: real -> real,
                norm: (real, real) -> real) returns (lines: seq<Line>)
      requires IsNorm(norm)
      modifies particles
      ensures !hasContext ==> particles[..] == old(particles[..]) && lines == []
      ensures hasContext ==>
        (forall k :: 0 <= k < particles.Length ==>
          particles[k] == Advance(old(particles[k]), mouseX, mouseY, w, h, now, sin, cos, norm))
      ensures hasContext ==> lines == Lines(particles[..], old(particles[..]), particles.Length, norm)
      ensures OpacitiesInRange(old(particles[..])) ==> OpacitiesInRange(particles[..])
      ensures hasContext && 0.0 <= w && 0.0 <= h ==> InViewport(particles[..], w, h)
    {
      lines := [];
      if !hasContext || particles.Length == 0 {
        return;
      }
      ghost var olds := particles[..];
      lines := MoveAll(w, h, now, sin, cos, norm);
      AdvancedRanges(olds, particles[..], mouseX, mouseY, w, h, now, sin, cos, norm);
    }

    /** A viewport resize gives every particle a new rest position in the
        new viewport, from the draws rand(2k) and rand(2k + 1); nothing else
        about any particle changes. */
    method HandleResize(w: real, h: real, rand: nat -> Unit)
      requires 0.0 <= w && 0.0 <= h
      modifies particles
      ensures forall k :: 0 <= k < particles.Length ==>
        particles[k] == old(particles[k]).(baseX := Scale(rand(2 * k), w), baseY := Scale(rand(2 * k + 1), h))
      ensures forall k :: 0 <= k < particles.Length ==>
        0.0 <= particles[k].baseX <= w && 0.0 <= particles[k].baseY <= h
    {
      if particles.Length > 0 {
        for i := 0 to particles.Length
          invariant forall k :: 0 <= k < i ==>
            particles[k] == old(particles[k]).(baseX := Scale(rand(2 * k), w), baseY := Scale(rand(2 * k + 1), h))
          invariant forall k :: i <= k < particles.Length ==> particles[k] == old(particles[k])
        {
          particles[i] := particles[i].(baseX := Scale(rand(2 * i), w), baseY := Scale(rand(2 * i + 1), h));
        }
      }
    }
  }
}
