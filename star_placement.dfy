/** The collision-avoiding placement pass of the star-field canvas
    (components/star-field-canvas.tsx, lines 79-110): stars are visited in
    input order; a star whose projected point lies closer than 12 px to a
    marker already placed is shrunk rather than dropped. */
module StarPlacement {
  import opened Types
  import opened StarProjection

  /** `MIN_DISTANCE`, compared squared so that no square root is needed. */
  const MinDistance: real := 12.0

  datatype Marker = Marker(pos: Point, size: real, brightness: real, labelOffset: Offset)

  /** `Math.hypot(...) < MIN_DISTANCE`, stated on squared distance. */
  predicate Near(p: Point, q: Point) {
    SqDist(p, q) < MinDistance * MinDistance
  }

  /** Some marker already placed is too close to `p`. */
  predicate Crowded(placed: seq<Marker>, p: Point) {
    exists k :: 0 <= k < |placed| && Near(placed[k].pos, p)
  }

  /** `Math.min(star.brightness, 10)`. */
  function CappedBrightness(s: Star): (br: real)
    ensures br <= 10.0
    ensures br == s.brightness || br == 10.0
  {
    if s.brightness <= 10.0 then s.brightness else 10.0
  }

  /** Radius of an uncrowded marker; it exceeds the 0.5 px drop threshold
      exactly when the brightness exceeds -1. */
  function BaseSize(br: real): (size: real)
    ensures size > 0.5 <==> br > -1.0
    ensures br >= 0.0 ==> 0.8 <= size
    ensures br <= 10.0 ==> size <= 3.8
  {
    br / 10.0 * 3.0 + 0.8
  }

  /** One step of the pass: the marker placed for a star at `pos`. */
  function Place(placed: seq<Marker>, pos: Point, s: Star, offset: Offset): seq<Marker> {
    var br := CappedBrightness(s);
    var base := BaseSize(br);
    if !Crowded(placed, pos) then placed + [Marker(pos, base, br, offset)]
    else if base > 0.5 then placed + [Marker(pos, base * 0.6, br * 0.7, offset)]
    else placed
  }

  /** The markers the pass produces for `stars`, in input order. */
  function Placement(b: Bounds, width: int, height: int, stars: seq<Star>, offsets: nat -> Offset): seq<Marker>
    requires Ordered(b)
  {
    if |stars| == 0 then []
    else
      var n := |stars| - 1;
      Place(Placement(b, width, height, stars[..n], offsets), Project(b, width, height, stars[n]), stars[n], offsets(n))
  }

  /** The placement loop with its inner collision scan. */
  method PlaceStars(b: Bounds, width: int, height: int, stars: seq<Star>, offsets: nat -> Offset)
    returns (markers: seq<Marker>)
    requires Ordered(b)
    ensures markers == Placement(b, width, height, stars, offsets)
  {
    markers := [];
    var i := 0;
    while i < |stars|
      invariant 0 <= i <= |stars|
      invariant markers == Placement(b, width, height, stars[..i], offsets)
    {
      var star := stars[i];
      var pos := Project(b, width, height, star);
      var brightness := CappedBrightness(star);
      var baseSize := BaseSize(brightness);
      var labelOffset := offsets(i);
      var hasCollision := false;
      var j := 0;
      while j < |markers|
        invariant 0 <= j <= |markers|
        invariant forall k :: 0 <= k < j ==> !Near(markers[k].pos, pos)
      {
        if SqDist(pos, markers[j].pos) < MinDistance * MinDistance {
          assert Near(markers[j].pos, pos);
          hasCollision := true;
          break;
        }
        j := j + 1;
      }
      assert hasCollision <==> Crowded(markers, pos);
      if !hasCollision {
        markers := markers + [Marker(pos, baseSize, brightness, labelOffset)];
      } else if baseSize > 0.5 {
        markers := markers + [Marker(pos, baseSize * 0.6, brightness * 0.7, labelOffset)];
      }
      assert stars[..i + 1][..i] == stars[..i];
      i := i + 1;
    }
    assert stars[..i] == stars;
  }

  /** The pass never produces more markers than stars. */
  lemma {:induction false} PlacementAtMostStars(b: Bounds, width: int, height: int, stars: seq<Star>, offsets: nat -> Offset)
    requires Ordered(b)
    ensures |Placement(b, width, height, stars, offsets)| <= |stars|
  {
    if |stars| > 0 {
      PlacementAtMostStars(b, width, height, stars[..|stars| - 1], offsets);
    }
  }

  /** The first star is never crowded, so it always gets its full size and brightness. */
  lemma FirstStarFullSize(b: Bounds, width: int, height: int, stars: seq<Star>, offsets: nat -> Offset)
    requires Ordered(b) && |stars| > 0
    ensures var m := Placement(b, width, height, stars, offsets);
      |m| > 0 && m[0] == Marker(Project(b, width, height, stars[0]), BaseSize(CappedBrightness(stars[0])), CappedBrightness(stars[0]), offsets(0))
  {
    PlacementPrefix(b, width, height, stars, offsets, 1);
    assert stars[..1][..0] == [];
  }

  /** The markers for a prefix of the stars are a prefix of the markers. */
  lemma {:induction false} PlacementPrefix(b: Bounds, width: int, height: int, stars: seq<Star>, offsets: nat -> Offset, i: nat)
    requires Ordered(b) && i <= |stars|
    ensures var whole := Placement(b, width, height, stars, offsets);
      var part := Placement(b, width, height, stars[..i], offsets);
      |part| <= |whole| && whole[..|part|] == part
  {
    if i < |stars| {
      var n := |stars| - 1;
      assert stars[..n][..i] == stars[..i];
      PlacementPrefix(b, width, height, stars[..n], offsets, i);
    } else {
      assert stars[..i] == stars;
    }
  }

  /** No star is dimmer than -1 (true of every star the analysis generator produces). */
  predicate NoneDropped(stars: seq<Star>) {
    forall k :: 0 <= k < |stars| ==> stars[k].brightness > -1.0
  }

  /** Marker k of `m` is the one the pass owes star k: at the star's
      projected point with its label offset, with full size and brightness
      exactly when no earlier marker of `m` is within 12 px, and with size
      ×0.6 and brightness ×0.7 otherwise. */
  predicate PlacedAsStated(b: Bounds, width: int, height: int, stars: seq<Star>, offsets: nat -> Offset, m: seq<Marker>, k: nat)
    requires Ordered(b) && k < |stars| && k < |m|
  {
    var pos := Project(b, width, height, stars[k]);
    var br := CappedBrightness(stars[k]);
    m[k].pos == pos && m[k].labelOffset == offsets(k) &&
    (!Crowded(m[..k], pos) ==> m[k].size == BaseSize(br) && m[k].brightness == br) &&
    (Crowded(m[..k], pos) ==> m[k].size == BaseSize(br) * 0.6 && m[k].brightness == br * 0.7) &&
    (m[k].size == BaseSize(br) <==> !Crowded(m[..k], pos))
  }

  /** The step for the last star, whatever happened to the earlier ones: it
      keeps every earlier marker and adds exactly one, at the star's projected
      point with its label offset, full-sized and at full brightness exactly
      when no earlier marker is within 12 px, otherwise at size ×0.6 and
      brightness ×0.7. */
  lemma PlacementLastStep(b: Bounds, width: int, height: int, stars: seq<Star>, offsets: nat -> Offset)
    requires Ordered(b) && |stars| > 0 && stars[|stars| - 1].brightness > -1.0
    ensures var n := |stars| - 1;
      var prev := Placement(b, width, height, stars[..n], offsets);
      var m := Placement(b, width, height, stars, offsets);
      var pos := Project(b, width, height, stars[n]);
      var br := CappedBrightness(stars[n]);
      |m| == |prev| + 1 && m[..|prev|] == prev &&
      m[|prev|].pos == pos && m[|prev|].labelOffset == offsets(n) &&
      (!Crowded(prev, pos) ==> m[|prev|].size == BaseSize(br) && m[|prev|].brightness == br) &&
      (Crowded(prev, pos) ==> m[|prev|].size == BaseSize(br) * 0.6 && m[|prev|].brightness == br * 0.7) &&
      (m[|prev|].size == BaseSize(br) <==> !Crowded(prev, pos)) &&
      (|prev| == n ==> PlacedAsStated(b, width, height, stars, offsets, m, n))
  {
    var n := |stars| - 1;
    var prev := Placement(b, width, height, stars[..n], offsets);
    var m := Placement(b, width, height, stars, offsets);
    assert m == prev + [m[|prev|]];
    assert m[..|prev|] == prev;
  }

  /** An earlier marker keeps the property it had in the shorter pass. */
  lemma PlacedAsStatedKept(b: Bounds, width: int, height: int, stars: seq<Star>, offsets: nat -> Offset, prev: seq<Marker>, m: seq<Marker>, k: nat)
    requires Ordered(b) && |stars| > 0 && k < |stars| - 1 && k < |prev| <= |m| && m[..|prev|] == prev
    requires PlacedAsStated(b, width, height, stars[..|stars| - 1], offsets, prev, k)
    ensures PlacedAsStated(b, width, height, stars, offsets, m, k)
  {
    assert stars[..|stars| - 1][k] == stars[k];
    assert m[k] == prev[k];
    assert m[..k] == prev[..k];
  }

  /** With no star dimmer than -1 the pass yields one marker per star, in
      input order, each as `PlacedAsStated` describes. */
  lemma {:induction false} PlacementOnePerStar(b: Bounds, width: int, height: int, stars: seq<Star>, offsets: nat -> Offset)
    requires Ordered(b) && NoneDropped(stars)
    ensures var m := Placement(b, width, height, stars, offsets);
      |m| == |stars| &&
      forall k :: 0 <= k < |stars| ==> PlacedAsStated(b, width, height, stars, offsets, m, k)
  {
    if |stars| > 0 {
      var n := |stars| - 1;
      var prev := Placement(b, width, height, stars[..n], offsets);
      assert NoneDropped(stars[..n]) by {
        forall k | 0 <= k < n ensures stars[..n][k].brightness > -1.0 {
          assert stars[..n][k] == stars[k];
        }
      }
      PlacementOnePerStar(b, width, height, stars[..n], offsets);
      var m := Placement(b, width, height, stars, offsets);
      PlacementLastStep(b, width, height, stars, offsets);
      forall k | 0 <= k < n
        ensures PlacedAsStated(b, width, height, stars, offsets, m, k)
      {
        PlacedAsStatedKept(b, width, height, stars, offsets, prev, m, k);
      }
    }
  }
}
