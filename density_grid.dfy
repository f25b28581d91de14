/** The density heat grid of the star-field canvas
    (components/star-field-canvas.tsx, lines 112-138): at every grid corner
    (multiples of 25 px below the canvas width and height) the stars within
    62.5 px contribute an inverse-distance weight; the sum is normalised by 8
    and capped at 1, and only cells above 0.05 are filled. The pixel
    distance is a parameter: any non-negative function, of which the
    Euclidean `Math.hypot` is one. */
module DensityGrid {
  import opened Types
  import opened StarProjection

  const GridSize: int := 25
  /** `gridSize * 2.5`. */
  const InfluenceRadius: real := 62.5
  const Falloff: real := 15.0
  const MaxDensity: real := 8.0
  const VisibilityFloor: real := 0.05

  datatype Cell = Cell(gx: int, gy: int, density: real, normalized: real, filled: bool)

  ghost predicate NonNegative(dist: (Point, Point) -> real) {
    forall p, q :: dist(p, q) >= 0.0
  }

  /** `1 / (1 + d / 15)`: 1 at distance zero, falling towards 0. */
  function Weight(d: real): (w: real)
    requires d >= 0.0
    ensures 0.0 < w <= 1.0
    ensures d == 0.0 ==> w == 1.0
  {
    var q := 1.0 + d / Falloff;
    assert q * (1.0 / q) == 1.0;
    1.0 / q
  }

  /** What one star at `p` adds to the corner `g`. */
  function Contribution(dist: (Point, Point) -> real, p: Point, g: Point): (c: real)
    requires NonNegative(dist)
    ensures 0.0 <= c <= 1.0
    ensures c > 0.0 <==> dist(p, g) < InfluenceRadius
  {
    var d := dist(p, g);
    if d < InfluenceRadius then Weight(d) else 0.0
  }

  /** The raw density at `g`: the contributions of all stars, summed in list order. */
  function Density(b: Bounds, width: int, height: int, stars: seq<Star>, dist: (Point, Point) -> real, g: Point): (r: real)
    requires Ordered(b) && NonNegative(dist)
    ensures 0.0 <= r <= |stars| as real
  {
    if |stars| == 0 then 0.0
    else
      var n := |stars| - 1;
      Density(b, width, height, stars[..n], dist, g) + Contribution(dist, Project(b, width, height, stars[n]), g)
  }

  /** `Math.min(density / maxDensity, 1)`. */
  function Normalized(density: real): (r: real)
    requires density >= 0.0
    ensures 0.0 <= r <= 1.0
    ensures r > VisibilityFloor <==> density > VisibilityFloor * MaxDensity
  {
    if density / MaxDensity <= 1.0 then density / MaxDensity else 1.0
  }

  /** The cell at the grid corner (gx, gy). */
  function CellAt(b: Bounds, width: int, height: int, stars: seq<Star>, dist: (Point, Point) -> real, gx: int, gy: int): Cell
    requires Ordered(b) && NonNegative(dist)
  {
    var density := Density(b, width, height, stars, dist, Point(gx as real, gy as real));
    var normalized := Normalized(density);
    Cell(gx, gy, density, normalized, normalized > VisibilityFloor)
  }

  /** The nested grid loops: column i holds the corners with gx = 25 i, row
      j of it the corner with gy = 25 j; there are exactly as many columns
      (rows) as multiples of 25 below the width (height). */
  method HeatGrid(b: Bounds, width: int, height: int, stars: seq<Star>, dist: (Point, Point) -> real)
    returns (grid: seq<seq<Cell>>)
    requires Ordered(b) && NonNegative(dist)
    ensures forall i :: 0 <= i < |grid| ==> GridSize * i < width
    ensures GridSize * |grid| >= width
    ensures forall i :: 0 <= i < |grid| ==> forall j :: 0 <= j < |grid[i]| ==> GridSize * j < height
    ensures forall i :: 0 <= i < |grid| ==> GridSize * |grid[i]| >= height
    ensures forall i, j :: 0 <= i < |grid| && 0 <= j < |grid[i]| ==>
      grid[i][j] == CellAt(b, width, height, stars, dist, GridSize * i, GridSize * j)
  {
    grid := [];
    var gx := 0;
    while gx < width
      invariant gx == GridSize * |grid|
      invariant forall i :: 0 <= i < |grid| ==> GridSize * i < width
      invariant forall i :: 0 <= i < |grid| ==> forall j :: 0 <= j < |grid[i]| ==> GridSize * j < height
      invariant forall i :: 0 <= i < |grid| ==> GridSize * |grid[i]| >= height
      invariant forall i, j :: 0 <= i < |grid| && 0 <= j < |grid[i]| ==>
        grid[i][j] == CellAt(b, width, height, stars, dist, GridSize * i, GridSize * j)
      decreases width - gx
    {
      var column := ColumnCells(b, width, height, stars, dist, gx);
      grid := grid + [column];
      gx := gx + GridSize;
    }
  }

  /** The inner `gy` loop for one column. */
  method ColumnCells(b: Bounds, width: int, height: int, stars: seq<Star>, dist: (Point, Point) -> real, gx: int)
    returns (column: seq<Cell>)
    requires Ordered(b) && NonNegative(dist)
    ensures forall j :: 0 <= j < |column| ==> GridSize * j < height
    ensures GridSize * |column| >= height
    ensures forall j :: 0 <= j < |column| ==> column[j] == CellAt(b, width, height, stars, dist, gx, GridSize * j)
  {
    column := [];
    var gy := 0;
    while gy < height
      invariant gy == GridSize * |column|
      invariant forall j :: 0 <= j < |column| ==> GridSize * j < height
      invariant forall j :: 0 <= j < |column| ==> column[j] == CellAt(b, width, height, stars, dist, gx, GridSize * j)
      decreases height - gy
    {
      var density := CornerDensity(b, width, height, stars, dist, gx, gy);
      var normalized := Normalized(density);
      column := column + [Cell(gx, gy, density, normalized, normalized > VisibilityFloor)];
      gy := gy + GridSize;
    }
  }

  /** The innermost loop: accumulate the weights of the stars within reach. */
  method CornerDensity(b: Bounds, width: int, height: int, stars: seq<Star>, dist: (Point, Point) -> real, gx: int, gy: int)
    returns (density: real)
    requires Ordered(b) && NonNegative(dist)
    ensures density == Density(b, width, height, stars, dist, Point(gx as real, gy as real))
  {
    var g := Point(gx as real, gy as real);
    density := 0.0;
    var k := 0;
    while k < |stars|
      invariant 0 <= k <= |stars|
      invariant density == Density(b, width, height, stars[..k], dist, g)
    {
      var pos := Project(b, width, height, stars[k]);
      var d := dist(pos, g);
      if d < InfluenceRadius {
        density := density + 1.0 / (1.0 + d / Falloff);
      }
      assert stars[..k + 1][..k] == stars[..k];
      k := k + 1;
    }
    assert stars[..k] == stars;
  }

  /** Appending a star raises the density at `g` by exactly its weight when
      it is within the influence radius and leaves it unchanged otherwise;
      so adding a star never lowers a cell. */
  lemma AddingStarAddsWeight(b: Bounds, width: int, height: int, stars: seq<Star>, s: Star, dist: (Point, Point) -> real, g: Point)
    requires Ordered(b) && NonNegative(dist)
    ensures var d := dist(Project(b, width, height, s), g);
      var before := Density(b, width, height, stars, dist, g);
      var after := Density(b, width, height, stars + [s], dist, g);
      (d < InfluenceRadius ==> after == before + Weight(d) && after > before) &&
      (d >= InfluenceRadius ==> after == before)
  {
    assert (stars + [s])[..|stars|] == stars;
  }

  /** The density of two lists joined is the sum of their densities. */
  lemma {:induction false} DensityAppend(b: Bounds, width: int, height: int, u: seq<Star>, v: seq<Star>, dist: (Point, Point) -> real, g: Point)
    requires Ordered(b) && NonNegative(dist)
    ensures Density(b, width, height, u + v, dist, g) == Density(b, width, height, u, dist, g) + Density(b, width, height, v, dist, g)
  {
    if |v| == 0 {
      assert u + v == u;
    } else {
      var n := |v| - 1;
      assert (u + v)[..|u + v| - 1] == u + v[..n];
      assert (u + v)[|u + v| - 1] == v[n];
      DensityAppend(b, width, height, u, v[..n], dist, g);
    }
  }

  /** Taking star i out of the list lowers the density by exactly its contribution. */
  lemma DensityRemove(b: Bounds, width: int, height: int, stars: seq<Star>, i: nat, dist: (Point, Point) -> real, g: Point)
    requires Ordered(b) && NonNegative(dist) && i < |stars|
    ensures Density(b, width, height, stars, dist, g) ==
      Density(b, width, height, stars[..i] + stars[i + 1..], dist, g) + Contribution(dist, Project(b, width, height, stars[i]), g)
  {
    var one := [stars[i]];
    assert one[..0] == [];
    assert stars == (stars[..i] + one) + stars[i + 1..];
    DensityAppend(b, width, height, stars[..i] + one, stars[i + 1..], dist, g);
    DensityAppend(b, width, height, stars[..i], one, dist, g);
    DensityAppend(b, width, height, stars[..i], stars[i + 1..], dist, g);
  }

  /** The density does not depend on the order in which the stars are
      listed: any two lists holding the same stars, each as often, give the
      same sum at every corner. */
  lemma {:induction false} DensityPermutationInvariant(b: Bounds, width: int, height: int, xs: seq<Star>, ys: seq<Star>, dist: (Point, Point) -> real, g: Point)
    requires Ordered(b) && NonNegative(dist)
    requires multiset(xs) == multiset(ys)
    ensures Density(b, width, height, xs, dist, g) == Density(b, width, height, ys, dist, g)
  {
    if |xs| > 0 {
      var n := |xs| - 1;
      var x := xs[n];
      assert xs == xs[..n] + [x];
      assert x in multiset(ys);
      var i :| 0 <= i < |ys| && ys[i] == x;
      var rest := ys[..i] + ys[i + 1..];
      assert ys == ys[..i] + [x] + ys[i + 1..];
      assert multiset(ys) == multiset(ys[..i]) + multiset{x} + multiset(ys[i + 1..]);
      assert multiset(rest) == multiset(ys[..i]) + multiset(ys[i + 1..]);
      assert multiset(xs) == multiset(xs[..n]) + multiset{x};
      assert multiset(xs[..n]) == multiset(xs) - multiset{x};
      assert multiset(rest) == multiset(ys) - multiset{x};
      DensityPermutationInvariant(b, width, height, xs[..n], rest, dist, g);
      DensityRemove(b, width, height, ys, i, dist, g);
    } else {
      assert |ys| == |multiset(ys)| == 0;
    }
  }

  /** The Euclidean pixel distance passes the radius test exactly when the
      squared distance is below 62.5 squared. */
  lemma EuclideanWithinRadius(dist: (Point, Point) -> real, p: Point, q: Point)
    requires dist(p, q) >= 0.0 && dist(p, q) * dist(p, q) == SqDist(p, q)
    ensures dist(p, q) < InfluenceRadius <==> SqDist(p, q) < InfluenceRadius * InfluenceRadius
  {
    BelowRadiusIffSquared(dist(p, q), SqDist(p, q), InfluenceRadius);
  }
}
