/** One render pass of the star-field canvas
    (components/star-field-canvas.tsx, lines 22-33 and 47-234) without the
    drawing calls: it resolves the props, fits the projection to the star
    list and derives the markers, the heat grid, the constellation edges
    and the constellation labels. Nothing is computed for an empty list. */
module StarFieldCanvas {
  import opened Types
  import opened StarProjection
  import opened StarPlacement
  import opened DensityGrid
  import opened ConstellationLayout

  const DefaultWidth: int := 800
  const DefaultHeight: int := 600

  /** The component's props; `None` is a prop left undefined. */
  datatype Props = Props(
    analysis: Option<AnalysisResult>,
    stars: Option<seq<Star>>,
    constellations: Option<seq<Constellation>>,
    width: Option<int>,
    height: Option<int>,
    showHeatmap: Option<bool>,
    showConstellations: Option<bool>)

  /** Everything one pass derives from its inputs. */
  datatype Frame = Frame(
    bounds: Bounds,
    markers: seq<Marker>,
    heat: seq<seq<Cell>>,
    edges: seq<seq<Edge>>,
    labels: seq<Label>)

  function OrDefault<T>(o: Option<T>, default: T): (r: T)
    ensures o.Some? ==> r == o.value
    ensures o.None? ==> r == default
  {
    if o.Some? then o.value else default
  }

  /** The label of constellation k, if any member resolves. */
  function LabelFor(b: Bounds, width: int, height: int, stars: seq<Star>, c: Constellation, jitter: Offset): seq<Label>
    requires Ordered(b)
  {
    match Centroid(MemberPoints(b, width, height, stars, c.stars))
    case None => []
    case Some(centroid) => [Label(c.name, centroid, Shift(centroid, jitter))]
  }

  /** The labels of all constellations, in list order; constellation k is
      moved by `jitter(k)`. */
  function Labels(b: Bounds, width: int, height: int, stars: seq<Star>, cs: seq<Constellation>, jitter: nat -> Offset): seq<Label>
    requires Ordered(b)
  {
    if |cs| == 0 then []
    else
      var n := |cs| - 1;
      Labels(b, width, height, stars, cs[..n], jitter) + LabelFor(b, width, height, stars, cs[n], jitter(n))
  }

  /** The label loop over all constellations. */
  method LayoutLabels(b: Bounds, width: int, height: int, stars: seq<Star>, cs: seq<Constellation>, jitter: nat -> Offset)
    returns (labels: seq<Label>)
    requires Ordered(b)
    ensures labels == Labels(b, width, height, stars, cs, jitter)
  {
    labels := [];
    for k := 0 to |cs|
      invariant labels == Labels(b, width, height, stars, cs[..k], jitter)
    {
      var caption := ConstellationLabel(b, width, height, stars, cs[k], jitter(k));
      assert cs[..k + 1][..k] == cs[..k];
      if caption.Some? {
        labels := labels + [caption.value];
      }
    }
    assert cs[..|cs|] == cs;
  }

  /** The whole pass. */
  method RenderPass(props: Props, labelOffsets: nat -> Offset, nameJitter: nat -> Offset, dist: (Point, Point) -> real)
    returns (frame: Option<Frame>)
    requires NonNegative(dist)
    ensures var stars := StarsOf(props.stars, props.analysis);
      var cs := ConstellationsOf(props.constellations, props.analysis);
      var width := OrDefault(props.width, DefaultWidth);
      var height := OrDefault(props.height, DefaultHeight);
      (frame.None? <==> stars == []) &&
      (frame.Some? ==>
        var f := frame.value;
        f.bounds == BoundsOf(stars) &&
        f.markers == Placement(f.bounds, width, height, stars, labelOffsets) &&
        (!OrDefault(props.showHeatmap, false) ==> f.heat == []) &&
        (OrDefault(props.showHeatmap, false) ==>
          GridSize * |f.heat| >= width &&
          forall i :: 0 <= i < |f.heat| ==>
            GridSize * i < width && GridSize * |f.heat[i]| >= height &&
            forall j :: 0 <= j < |f.heat[i]| ==>
              GridSize * j < height && f.heat[i][j] == CellAt(f.bounds, width, height, stars, dist, GridSize * i, GridSize * j)) &&
        (!OrDefault(props.showConstellations, false) ==> f.edges == [] && f.labels == []) &&
        (OrDefault(props.showConstellations, false) ==>
          f.labels == Labels(f.bounds, width, height, stars, cs, nameJitter) &&
          |f.edges| == |cs| &&
          forall k :: 0 <= k < |cs| ==> f.edges[k] == EdgesOf(f.bounds, width, height, stars, cs[k].stars)))
  {
    var stars := StarsOf(props.stars, props.analysis);
    var constellations := ConstellationsOf(props.constellations, props.analysis);
    var width := OrDefault(props.width, DefaultWidth);
    var height := OrDefault(props.height, DefaultHeight);
    var showHeatmap := OrDefault(props.showHeatmap, false);
    var showConstellations := OrDefault(props.showConstellations, false);
    if |stars| == 0 {
      return None;
    }
    var b := BoundsOf(stars);
    var markers := PlaceStars(b, width, height, stars, labelOffsets);
    var heat: seq<seq<Cell>> := [];
    if showHeatmap {
      heat := HeatGrid(b, width, height, stars, dist);
    }
    var edges: seq<seq<Edge>> := [];
    var labels: seq<Label> := [];
    if showConstellations && |constellations| > 0 {
      edges := LayoutEdges(b, width, height, stars, constellations);
      labels := LayoutLabels(b, width, height, stars, constellations, nameJitter);
    }
    frame := Some(Frame(b, markers, heat, edges, labels));
  }

  /** Each label's centroid is the centroid of some constellation's resolving members. */
  lemma {:induction false} LabelsAreCentroids(b: Bounds, width: int, height: int, stars: seq<Star>, cs: seq<Constellation>, jitter: nat -> Offset, l: Label)
    requires Ordered(b)
    requires l in Labels(b, width, height, stars, cs, jitter)
    ensures exists k :: (0 <= k < |cs| && l.name == cs[k].name &&
      Centroid(MemberPoints(b, width, height, stars, cs[k].stars)) == Some(l.centroid) &&
      l.position == Shift(l.centroid, jitter(k)))
  {
    var n := |cs| - 1;
    if l in Labels(b, width, height, stars, cs[..n], jitter) {
      LabelsAreCentroids(b, width, height, stars, cs[..n], jitter, l);
      var k :| 0 <= k < n && l.name == cs[..n][k].name &&
        Centroid(MemberPoints(b, width, height, stars, cs[..n][k].stars)) == Some(l.centroid) &&
        l.position == Shift(l.centroid, jitter(k));
      assert cs[..n][k] == cs[k];
    } else {
      assert l in LabelFor(b, width, height, stars, cs[n], jitter(n));
    }
  }

  /** On a canvas of at least 100 x 100 px, every label centroid of a pass
      lies inside the padded frame, whatever indices the constellations hold. */
  lemma LabelCentroidsInFrame(stars: seq<Star>, width: int, height: int, cs: seq<Constellation>, jitter: nat -> Offset, l: Label)
    requires |stars| > 0 && width >= 100 && height >= 100
    requires l in Labels(BoundsOf(stars), width, height, stars, cs, jitter)
    ensures InFrame(l.centroid, width, height)
  {
    var b := BoundsOf(stars);
    LabelsAreCentroids(b, width, height, stars, cs, jitter, l);
    var k :| 0 <= k < |cs| && l.name == cs[k].name &&
      Centroid(MemberPoints(b, width, height, stars, cs[k].stars)) == Some(l.centroid) &&
      l.position == Shift(l.centroid, jitter(k));
    var pts := MemberPoints(b, width, height, stars, cs[k].stars);
    forall i | 0 <= i < |pts| ensures InFrame(pts[i], width, height) {
      MemberPointsAreStars(b, width, height, stars, cs[k].stars, pts[i]);
      var j :| 0 <= j < |stars| && pts[i] == Project(b, width, height, stars[j]);
      ProjectionInFrame(stars, width, height, j);
    }
    CentroidInFrame(pts, width, height);
  }

  /** Likewise every marker of a pass lies inside the padded frame. */
  lemma {:induction false} MarkersInFrame(b: Bounds, width: int, height: int, stars: seq<Star>, offsets: nat -> Offset)
    requires Ordered(b) && width >= 100 && height >= 100
    requires forall k :: 0 <= k < |stars| ==> b.raMin <= stars[k].ra <= b.raMax && b.decMin <= stars[k].dec <= b.decMax
    ensures forall m :: m in Placement(b, width, height, stars, offsets) ==> InFrame(m.pos, width, height)
  {
    if |stars| > 0 {
      var n := |stars| - 1;
      MarkersInFrame(b, width, height, stars[..n], offsets);
      WithinBoundsInFrame(b, width, height, stars[n]);
    }
  }
}
