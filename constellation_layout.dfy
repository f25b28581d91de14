/** Constellation edges and name labels of the star-field canvas
    (components/star-field-canvas.tsx, lines 146-164 and 207-233). An index
    is looked up with array semantics: it denotes a star exactly when
    0 <= i < |stars|; any other index denotes nothing and only the edges
    and the centroid term that need it are skipped. */
module ConstellationLayout {
  import opened Types
  import opened StarProjection

  datatype Edge = Edge(from: Point, to: Point)

  /** A constellation name drawn at `position`, which is the centroid of the
      members moved by a random jitter. */
  datatype Label = Label(name: string, centroid: Point, position: Point)

  predicate Resolves(stars: seq<Star>, i: int) {
    0 <= i < |stars|
  }

  /** The line segments for one index list: consecutive pairs whose two
      indices both resolve, in list order. */
  function EdgesOf(b: Bounds, width: int, height: int, stars: seq<Star>, indices: seq<int>): seq<Edge>
    requires Ordered(b)
  {
    if |indices| < 2 then []
    else
      var n := |indices| - 1;
      EdgesOf(b, width, height, stars, indices[..n]) +
      (if Resolves(stars, indices[n - 1]) && Resolves(stars, indices[n])
       then [Edge(Project(b, width, height, stars[indices[n - 1]]), Project(b, width, height, stars[indices[n]]))]
       else [])
  }

  /** The edge loop of one constellation. */
  method ConstellationEdges(b: Bounds, width: int, height: int, stars: seq<Star>, c: Constellation)
    returns (edges: seq<Edge>)
    requires Ordered(b)
    ensures edges == EdgesOf(b, width, height, stars, c.stars)
  {
    edges := [];
    if |c.stars| < 2 {
      return;
    }
    var indices := c.stars;
    var i := 0;
    while i < |indices| - 1
      invariant 0 <= i <= |indices| - 1
      invariant edges == EdgesOf(b, width, height, stars, indices[..i + 1])
    {
      var i1, i2 := indices[i], indices[i + 1];
      if 0 <= i1 < |stars| && 0 <= i2 < |stars| {
        var pos1 := Project(b, width, height, stars[i1]);
        var pos2 := Project(b, width, height, stars[i2]);
        edges := edges + [Edge(pos1, pos2)];
      }
      assert indices[..i + 2][..i + 1] == indices[..i + 1];
      i := i + 1;
    }
    assert indices[..i + 1] == indices;
  }

  /** The edge loop over all constellations. */
  method LayoutEdges(b: Bounds, width: int, height: int, stars: seq<Star>, constellations: seq<Constellation>)
    returns (edges: seq<seq<Edge>>)
    requires Ordered(b)
    ensures |edges| == |constellations|
    ensures forall k :: 0 <= k < |constellations| ==> edges[k] == EdgesOf(b, width, height, stars, constellations[k].stars)
  {
    edges := [];
    for k := 0 to |constellations|
      invariant |edges| == k
      invariant forall j :: 0 <= j < k ==> edges[j] == EdgesOf(b, width, height, stars, constellations[j].stars)
    {
      var e := ConstellationEdges(b, width, height, stars, constellations[k]);
      edges := edges + [e];
    }
  }

  /** There is at most one edge per consecutive pair, and none for a list
      shorter than two. */
  lemma {:induction false} EdgeCountBound(b: Bounds, width: int, height: int, stars: seq<Star>, indices: seq<int>)
    requires Ordered(b)
    ensures |indices| < 2 ==> EdgesOf(b, width, height, stars, indices) == []
    ensures |indices| >= 1 ==> |EdgesOf(b, width, height, stars, indices)| <= |indices| - 1
  {
    if |indices| >= 2 {
      EdgeCountBound(b, width, height, stars, indices[..|indices| - 1]);
    }
  }

  /** Every edge joins the projections of two consecutive members that both resolve. */
  lemma {:induction false} EdgesJoinResolvedNeighbours(b: Bounds, width: int, height: int, stars: seq<Star>, indices: seq<int>, e: Edge)
    requires Ordered(b)
    requires e in EdgesOf(b, width, height, stars, indices)
    ensures exists k :: (0 <= k < |indices| - 1 && Resolves(stars, indices[k]) && Resolves(stars, indices[k + 1]) &&
      e == Edge(Project(b, width, height, stars[indices[k]]), Project(b, width, height, stars[indices[k + 1]])))
  {
    var n := |indices| - 1;
    var prefix := indices[..n];
    if e in EdgesOf(b, width, height, stars, prefix) {
      EdgesJoinResolvedNeighbours(b, width, height, stars, prefix, e);
      var k :| 0 <= k < |prefix| - 1 && Resolves(stars, prefix[k]) && Resolves(stars, prefix[k + 1]) &&
        e == Edge(Project(b, width, height, stars[prefix[k]]), Project(b, width, height, stars[prefix[k + 1]]));
      assert prefix[k] == indices[k] && prefix[k + 1] == indices[k + 1];
    } else {
      assert n - 1 >= 0 && Resolves(stars, indices[n - 1]) && Resolves(stars, indices[n]);
    }
  }

  /** Conversely, every consecutive pair whose two indices both resolve draws
      its edge, whatever the other members are. */
  lemma {:induction false} EdgesComplete(b: Bounds, width: int, height: int, stars: seq<Star>, indices: seq<int>, k: nat)
    requires Ordered(b)
    requires k < |indices| - 1 && Resolves(stars, indices[k]) && Resolves(stars, indices[k + 1])
    ensures Edge(Project(b, width, height, stars[indices[k]]), Project(b, width, height, stars[indices[k + 1]]))
      in EdgesOf(b, width, height, stars, indices)
  {
    var n := |indices| - 1;
    if k < n - 1 {
      assert indices[..n][k] == indices[k] && indices[..n][k + 1] == indices[k + 1];
      EdgesComplete(b, width, height, stars, indices[..n], k);
    }
  }

  /** When every member resolves, the constellation is one unbroken chain:
      exactly |indices| - 1 edges, edge k joining members k and k + 1. */
  lemma {:induction false} FullChain(b: Bounds, width: int, height: int, stars: seq<Star>, indices: seq<int>)
    requires Ordered(b) && |indices| >= 1
    requires forall k :: 0 <= k < |indices| ==> 0 <= indices[k] < |stars|
    ensures var edges := EdgesOf(b, width, height, stars, indices);
      |edges| == |indices| - 1 &&
      forall k :: 0 <= k < |indices| - 1 ==>
        edges[k] == Edge(Project(b, width, height, stars[indices[k]]), Project(b, width, height, stars[indices[k + 1]]))
  {
    if |indices| >= 2 {
      var n := |indices| - 1;
      FullChain(b, width, height, stars, indices[..n]);
      var edges := EdgesOf(b, width, height, stars, indices);
      var prev := EdgesOf(b, width, height, stars, indices[..n]);
      assert edges == prev + [Edge(Project(b, width, height, stars[indices[n - 1]]), Project(b, width, height, stars[indices[n]]))];
      forall k | 0 <= k < n - 1
        ensures edges[k] == Edge(Project(b, width, height, stars[indices[k]]), Project(b, width, height, stars[indices[k + 1]]))
      {
        assert indices[..n][k] == indices[k] && indices[..n][k + 1] == indices[k + 1];
      }
    }
  }

  /** The projected positions of the members that resolve, in list order. */
  function MemberPoints(b: Bounds, width: int, height: int, stars: seq<Star>, indices: seq<int>): (pts: seq<Point>)
    requires Ordered(b)
    ensures |pts| <= |indices|
  {
    if |indices| == 0 then []
    else
      var n := |indices| - 1;
      MemberPoints(b, width, height, stars, indices[..n]) +
      (if Resolves(stars, indices[n]) then [Project(b, width, height, stars[indices[n]])] else [])
  }

  function SumX(pts: seq<Point>): real {
    if |pts| == 0 then 0.0 else SumX(pts[..|pts| - 1]) + pts[|pts| - 1].x
  }

  function SumY(pts: seq<Point>): real {
    if |pts| == 0 then 0.0 else SumY(pts[..|pts| - 1]) + pts[|pts| - 1].y
  }

  /** The mean of the points, or nothing for no points. */
  function Centroid(pts: seq<Point>): Option<Point> {
    if |pts| == 0 then None else Some(Point(SumX(pts) / |pts| as real, SumY(pts) / |pts| as real))
  }

  /** The label loop for one constellation: the mean projected position of
      the members that resolve, moved by `jitter`; no label for an empty
      member list or when no member resolves. */
  method ConstellationLabel(b: Bounds, width: int, height: int, stars: seq<Star>, c: Constellation, jitter: Offset)
    returns (caption: Option<Label>)
    requires Ordered(b)
    ensures caption.None? <==> Centroid(MemberPoints(b, width, height, stars, c.stars)).None?
    ensures caption.Some? ==> caption.value.name == c.name
    ensures caption.Some? ==> caption.value.centroid == Centroid(MemberPoints(b, width, height, stars, c.stars)).value
    ensures caption.Some? ==> caption.value.position == Shift(caption.value.centroid, jitter)
  {
    if |c.stars| == 0 {
      return None;
    }
    var centerX, centerY, count := 0.0, 0.0, 0;
    var k := 0;
    while k < |c.stars|
      invariant 0 <= k <= |c.stars|
      invariant centerX == SumX(MemberPoints(b, width, height, stars, c.stars[..k]))
      invariant centerY == SumY(MemberPoints(b, width, height, stars, c.stars[..k]))
      invariant count == |MemberPoints(b, width, height, stars, c.stars[..k])|
    {
      var starIdx := c.stars[k];
      MemberPointsStep(b, width, height, stars, c.stars, k);
      ghost var before := MemberPoints(b, width, height, stars, c.stars[..k]);
      if 0 <= starIdx < |stars| {
        var pos := Project(b, width, height, stars[starIdx]);
        SumsStep(before, pos);
        assert MemberPoints(b, width, height, stars, c.stars[..k + 1]) == before + [pos];
        centerX := centerX + pos.x;
        centerY := centerY + pos.y;
        count := count + 1;
      } else {
        assert MemberPoints(b, width, height, stars, c.stars[..k + 1]) == before;
      }
      k := k + 1;
    }
    assert c.stars[..k] == c.stars;
    if count > 0 {
      var centroid := Point(centerX / count as real, centerY / count as real);
      caption := Some(Label(c.name, centroid, Shift(centroid, jitter)));
    } else {
      caption := None;
    }
  }

  lemma MemberPointsStep(b: Bounds, width: int, height: int, stars: seq<Star>, indices: seq<int>, k: int)
    requires Ordered(b) && 0 <= k < |indices|
    ensures MemberPoints(b, width, height, stars, indices[..k + 1]) ==
      MemberPoints(b, width, height, stars, indices[..k]) +
      (if Resolves(stars, indices[k]) then [Project(b, width, height, stars[indices[k]])] else [])
  {
    assert indices[..k + 1][..k] == indices[..k];
  }

  lemma SumsStep(pts: seq<Point>, p: Point)
    ensures SumX(pts + [p]) == SumX(pts) + p.x && SumY(pts + [p]) == SumY(pts) + p.y
  {
    assert (pts + [p])[..|pts|] == pts;
  }

  /** No member resolves exactly when there is nothing to average. */
  lemma {:induction false} NoLabelIffNoMemberResolves(b: Bounds, width: int, height: int, stars: seq<Star>, indices: seq<int>)
    requires Ordered(b)
    ensures MemberPoints(b, width, height, stars, indices) == [] <==> forall k :: 0 <= k < |indices| ==> !Resolves(stars, indices[k])
  {
    if |indices| > 0 {
      var n := |indices| - 1;
      NoLabelIffNoMemberResolves(b, width, height, stars, indices[..n]);
      assert forall k :: 0 <= k < n ==> indices[..n][k] == indices[k];
    }
  }

  lemma {:induction false} SumXBetween(pts: seq<Point>, lo: real, hi: real)
    requires forall k :: 0 <= k < |pts| ==> lo <= pts[k].x <= hi
    ensures |pts| as real * lo <= SumX(pts) <= |pts| as real * hi
  {
    if |pts| > 0 {
      SumXBetween(pts[..|pts| - 1], lo, hi);
    }
  }

  lemma {:induction false} SumYBetween(pts: seq<Point>, lo: real, hi: real)
    requires forall k :: 0 <= k < |pts| ==> lo <= pts[k].y <= hi
    ensures |pts| as real * lo <= SumY(pts) <= |pts| as real * hi
  {
    if |pts| > 0 {
      SumYBetween(pts[..|pts| - 1], lo, hi);
    }
  }

  lemma MeanBetween(sum: real, n: real, lo: real, hi: real)
    requires n > 0.0 && n * lo <= sum <= n * hi
    ensures lo <= sum / n <= hi
  {
    QuotientMonotone(n * lo, sum, n);
    QuotientMonotone(sum, n * hi, n);
    assert n * lo / n == lo && n * hi / n == hi;
  }

  /** The centroid of points inside the padded frame is inside it too. */
  lemma CentroidInFrame(pts: seq<Point>, width: int, height: int)
    requires |pts| > 0
    requires forall k :: 0 <= k < |pts| ==> InFrame(pts[k], width, height)
    ensures InFrame(Centroid(pts).value, width, height)
  {
    SumXBetween(pts, Padding, width as real - Padding);
    SumYBetween(pts, Padding, height as real - Padding);
    MeanBetween(SumX(pts), |pts| as real, Padding, width as real - Padding);
    MeanBetween(SumY(pts), |pts| as real, Padding, height as real - Padding);
  }

  /** Every member point is the projection of a star of the list. */
  lemma {:induction false} MemberPointsAreStars(b: Bounds, width: int, height: int, stars: seq<Star>, indices: seq<int>, p: Point)
    requires Ordered(b)
    requires p in MemberPoints(b, width, height, stars, indices)
    ensures exists k :: 0 <= k < |stars| && p == Project(b, width, height, stars[k])
  {
    var n := |indices| - 1;
    if p in MemberPoints(b, width, height, stars, indices[..n]) {
      MemberPointsAreStars(b, width, height, stars, indices[..n], p);
    }
  }

  /** A constellation `[0, 999]` over five stars: the dangling index drops
      the only edge, but member 0 still resolves, so the label sits at star 0. */
  lemma DanglingIndexExample(b: Bounds, width: int, height: int, stars: seq<Star>)
    requires Ordered(b) && |stars| == 5
    ensures EdgesOf(b, width, height, stars, [0, 999]) == []
    ensures Centroid(MemberPoints(b, width, height, stars, [0, 999])) == Some(Project(b, width, height, stars[0]))
  {
    assert [0, 999][..1] == [0];
    assert [0][..0] == [];
    assert MemberPoints(b, width, height, stars, []) == [];
    assert MemberPoints(b, width, height, stars, [0]) == [Project(b, width, height, stars[0])];
    var pts := MemberPoints(b, width, height, stars, [0, 999]);
    assert pts == [Project(b, width, height, stars[0])];
    SumsStep([], Project(b, width, height, stars[0]));
    assert [] + [Project(b, width, height, stars[0])] == pts;
  }
}
