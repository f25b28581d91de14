/** The coordinate projector of the star-field canvas
    (components/star-field-canvas.tsx, lines 61-77): a linear map from
    right ascension and declination to canvas pixels, fitted to the bounds
    of the current star list with a fixed padding. */
module StarProjection {
  import opened Types

  const Padding: real := 50.0
  /** Spans substituted when every star shares one coordinate. */
  const RaFallbackSpan: real := 360.0
  const DecFallbackSpan: real := 180.0

  datatype Point = Point(x: real, y: real)

  /** A label offset; its random angle and length are chosen by the caller. */
  datatype Offset = Offset(dx: real, dy: real)

  function Shift(p: Point, o: Offset): Point {
    Point(p.x + o.dx, p.y + o.dy)
  }

  datatype Bounds = Bounds(raMin: real, raMax: real, decMin: real, decMax: real)

  predicate Ordered(b: Bounds) {
    b.raMin <= b.raMax && b.decMin <= b.decMax
  }

  /** `Math.min(...s)` on a non-empty list. */
  function MinOf(s: seq<real>): (m: real)
    requires |s| > 0
    ensures m in s
    ensures forall k :: 0 <= k < |s| ==> m <= s[k]
  {
    if |s| == 1 then s[0]
    else
      var rest := MinOf(s[1..]);
      if s[0] <= rest then s[0] else rest
  }

  /** `Math.max(...s)` on a non-empty list. */
  function MaxOf(s: seq<real>): (m: real)
    requires |s| > 0
    ensures m in s
    ensures forall k :: 0 <= k < |s| ==> s[k] <= m
  {
    if |s| == 1 then s[0]
    else
      var rest := MaxOf(s[1..]);
      if s[0] >= rest then s[0] else rest
  }

  function RaValues(stars: seq<Star>): (r: seq<real>)
    ensures |r| == |stars| && forall k :: 0 <= k < |stars| ==> r[k] == stars[k].ra
  {
    seq(|stars|, k requires 0 <= k < |stars| => stars[k].ra)
  }

  function DecValues(stars: seq<Star>): (r: seq<real>)
    ensures |r| == |stars| && forall k :: 0 <= k < |stars| ==> r[k] == stars[k].dec
  {
    seq(|stars|, k requires 0 <= k < |stars| => stars[k].dec)
  }

  /** The bounding box of a non-empty star list: each bound is attained by
      some star and encloses every star. */
  function BoundsOf(stars: seq<Star>): (b: Bounds)
    requires |stars| > 0
    ensures Ordered(b)
    ensures forall k :: 0 <= k < |stars| ==> b.raMin <= stars[k].ra <= b.raMax && b.decMin <= stars[k].dec <= b.decMax
    ensures exists k :: 0 <= k < |stars| && stars[k].ra == b.raMin
    ensures exists k :: 0 <= k < |stars| && stars[k].ra == b.raMax
    ensures exists k :: 0 <= k < |stars| && stars[k].dec == b.decMin
    ensures exists k :: 0 <= k < |stars| && stars[k].dec == b.decMax
  {
    var ras, decs := RaValues(stars), DecValues(stars);
    Bounds(MinOf(ras), MaxOf(ras), MinOf(decs), MaxOf(decs))
  }

  /** `hi - lo || fallback`: a zero spread is replaced by the fallback. */
  function Span(lo: real, hi: real, fallback: real): (r: real)
    requires lo <= hi && fallback > 0.0
    ensures r > 0.0
    ensures lo < hi ==> r == hi - lo
    ensures lo == hi ==> r == fallback
  {
    if hi - lo == 0.0 then fallback else hi - lo
  }

  function RaRange(b: Bounds): (r: real)
    requires Ordered(b)
    ensures r > 0.0
  {
    Span(b.raMin, b.raMax, RaFallbackSpan)
  }

  function DecRange(b: Bounds): (r: real)
    requires Ordered(b)
    ensures r > 0.0
  {
    Span(b.decMin, b.decMax, DecFallbackSpan)
  }

  /** `mapToCanvas`: the linear map onto the padded canvas. */
  function MapToCanvas(b: Bounds, width: int, height: int, ra: real, dec: real): (p: Point)
    requires Ordered(b)
    ensures ra == b.raMin ==> p.x == Padding
    ensures dec == b.decMin ==> p.y == Padding
    ensures b.raMin < b.raMax && ra == b.raMax ==> p.x == width as real - Padding
    ensures b.decMin < b.decMax && dec == b.decMax ==> p.y == height as real - Padding
  {
    Point(Padding + (ra - b.raMin) / RaRange(b) * (width as real - 2.0 * Padding),
          Padding + (dec - b.decMin) / DecRange(b) * (height as real - 2.0 * Padding))
  }

  function Project(b: Bounds, width: int, height: int, s: Star): Point
    requires Ordered(b)
  {
    MapToCanvas(b, width, height, s.ra, s.dec)
  }

  /** Squared Euclidean distance in pixel space. */
  function SqDist(p: Point, q: Point): (d: real)
    ensures d >= 0.0
  {
    (p.x - q.x) * (p.x - q.x) + (p.y - q.y) * (p.y - q.y)
  }

  lemma SquareBelow(a: real, b: real)
    requires 0.0 <= a < b
    ensures a * a < b * b
  {
    var gap, sum := b - a, b + a;
    assert gap * sum > 0.0;
    assert gap * sum == b * b - a * a;
  }

  /** A non-negative distance is below a non-negative radius exactly when
      its square is below the radius squared. */
  lemma BelowRadiusIffSquared(d: real, sq: real, r: real)
    requires d >= 0.0 && r >= 0.0 && d * d == sq
    ensures d < r <==> sq < r * r
  {
    if d < r {
      SquareBelow(d, r);
    } else if r < d {
      SquareBelow(r, d);
    }
  }

  /** The minimum corner of the bounds lands on the padding corner. */
  lemma MinCornerAtPadding(b: Bounds, width: int, height: int)
    requires Ordered(b)
    ensures MapToCanvas(b, width, height, b.raMin, b.decMin) == Point(Padding, Padding)
  {
  }

  /** With non-zero spreads the maximum corner lands on the opposite padding corner. */
  lemma MaxCornerAtFarPadding(b: Bounds, width: int, height: int)
    requires b.raMin < b.raMax && b.decMin < b.decMax
    ensures MapToCanvas(b, width, height, b.raMax, b.decMax) == Point(width as real - Padding, height as real - Padding)
  {
    var rr, dr := b.raMax - b.raMin, b.decMax - b.decMin;
    assert (b.raMax - b.raMin) / RaRange(b) == 1.0;
    assert (b.decMax - b.decMin) / DecRange(b) == 1.0;
  }

  lemma ScaleWithin(t: real, s: real)
    requires 0.0 <= t <= 1.0 && 0.0 <= s
    ensures 0.0 <= t * s <= s
  {
    assert (1.0 - t) * s >= 0.0;
  }

  lemma ScaleMonotone(t1: real, t2: real, s: real)
    requires t1 <= t2 && 0.0 <= s
    ensures t1 * s <= t2 * s
  {
    assert (t2 - t1) * s >= 0.0;
  }

  lemma QuotientMonotone(a1: real, a2: real, r: real)
    requires a1 <= a2 && r > 0.0
    ensures a1 / r <= a2 / r
  {
    assert a2 / r - a1 / r == (a2 - a1) / r;
  }

  lemma QuotientInUnit(a: real, r: real)
    requires 0.0 <= a <= r && r > 0.0
    ensures 0.0 <= a / r <= 1.0
  {
    QuotientMonotone(a, r, r);
    QuotientMonotone(0.0, a, r);
  }

  /** On a canvas at least twice the padding wide and high, the projection
      is non-decreasing in each coordinate. */
  lemma {:induction false} ProjectionMonotone(b: Bounds, width: int, height: int, ra1: real, dec1: real, ra2: real, dec2: real)
    requires Ordered(b) && width >= 100 && height >= 100
    requires ra1 <= ra2 && dec1 <= dec2
    ensures MapToCanvas(b, width, height, ra1, dec1).x <= MapToCanvas(b, width, height, ra2, dec2).x
    ensures MapToCanvas(b, width, height, ra1, dec1).y <= MapToCanvas(b, width, height, ra2, dec2).y
  {
    QuotientMonotone(ra1 - b.raMin, ra2 - b.raMin, RaRange(b));
    ScaleMonotone((ra1 - b.raMin) / RaRange(b), (ra2 - b.raMin) / RaRange(b), width as real - 2.0 * Padding);
    QuotientMonotone(dec1 - b.decMin, dec2 - b.decMin, DecRange(b));
    ScaleMonotone((dec1 - b.decMin) / DecRange(b), (dec2 - b.decMin) / DecRange(b), height as real - 2.0 * Padding);
  }

  /** Inside the padded rectangle of the canvas. */
  predicate InFrame(p: Point, width: int, height: int) {
    Padding <= p.x <= width as real - Padding && Padding <= p.y <= height as real - Padding
  }

  lemma {:induction false} CoordinateInFrame(lo: real, hi: real, fallback: real, v: real, size: int)
    requires lo <= v <= hi && fallback > 0.0 && size >= 100
    ensures Padding <= Padding + (v - lo) / Span(lo, hi, fallback) * (size as real - 2.0 * Padding) <= size as real - Padding
  {
    var r := Span(lo, hi, fallback);
    QuotientInUnit(v - lo, r);
    ScaleWithin((v - lo) / r, size as real - 2.0 * Padding);
  }

  /** A point within the bounds projects inside the padded frame. */
  lemma {:induction false} WithinBoundsInFrame(b: Bounds, width: int, height: int, s: Star)
    requires Ordered(b) && width >= 100 && height >= 100
    requires b.raMin <= s.ra <= b.raMax && b.decMin <= s.dec <= b.decMax
    ensures InFrame(Project(b, width, height, s), width, height)
  {
    CoordinateInFrame(b.raMin, b.raMax, RaFallbackSpan, s.ra, width);
    CoordinateInFrame(b.decMin, b.decMax, DecFallbackSpan, s.dec, height);
    assert RaRange(b) == Span(b.raMin, b.raMax, RaFallbackSpan);
    assert DecRange(b) == Span(b.decMin, b.decMax, DecFallbackSpan);
  }

  /** Every star of the list projects inside the padded frame. */
  lemma {:induction false} ProjectionInFrame(stars: seq<Star>, width: int, height: int, k: int)
    requires 0 <= k < |stars| && width >= 100 && height >= 100
    ensures InFrame(Project(BoundsOf(stars), width, height, stars[k]), width, height)
  {
    WithinBoundsInFrame(BoundsOf(stars), width, height, stars[k]);
  }
}
