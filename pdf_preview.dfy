/** The zoom control of the report preview (components/pdf-preview.tsx):
    one percentage, stepped by 10 and clamped to [50, 200]. */
module PdfPreview {
  const InitialZoom := 100
  const MinZoom := 50
  const MaxZoom := 200
  const ZoomStep := 10

  /** The zoom levels the control can reach. */
  predicate Reachable(z: int) {
    MinZoom <= z <= MaxZoom && z % ZoomStep == 0
  }

  /** `Math.min(200, zoom + 10)`. */
  function ZoomedIn(z: int): (r: int)
    ensures r <= MaxZoom && (z <= MaxZoom ==> r >= z)
    ensures z < MaxZoom ==> r > z
    ensures Reachable(z) ==> Reachable(r)
  {
    if z + ZoomStep <= MaxZoom then z + ZoomStep else MaxZoom
  }

  /** `Math.max(50, zoom - 10)`. */
  function ZoomedOut(z: int): (r: int)
    ensures r >= MinZoom && (z >= MinZoom ==> r <= z)
    ensures z > MinZoom ==> r < z
    ensures Reachable(z) ==> Reachable(r)
  {
    if z - ZoomStep >= MinZoom then z - ZoomStep else MinZoom
  }

  /** The CSS scale factor `zoom / 100`. */
  function Scale(z: int): (s: real)
    ensures Reachable(z) ==> 0.5 <= s <= 2.0
  {
    z as real / 100.0
  }

  /** At the limits the buttons do nothing. */
  lemma ClampedAtLimits()
    ensures ZoomedOut(MinZoom) == MinZoom && ZoomedIn(MaxZoom) == MaxZoom
  {
  }

  /** Below the top, zooming in and back out returns to the same level;
      above the bottom, zooming out and back in does. */
  lemma ZoomRoundTrips(z: int)
    requires Reachable(z)
    ensures z < MaxZoom ==> ZoomedOut(ZoomedIn(z)) == z
    ensures z > MinZoom ==> ZoomedIn(ZoomedOut(z)) == z
  {
    if z < MaxZoom {
      assert z + ZoomStep <= MaxZoom;
    }
    if z > MinZoom {
      assert z - ZoomStep >= MinZoom;
    }
  }

  class ZoomControl {
    var zoom: int

    ghost predicate Valid()
      reads this
    {
      Reachable(zoom)
    }

    constructor ()
      ensures zoom == InitialZoom && Valid()
    {
      zoom := InitialZoom;
    }

    method ZoomOut()
      requires Valid()
      modifies this
      ensures zoom == ZoomedOut(old(zoom)) && Valid()
    {
      zoom := ZoomedOut(zoom);
    }

    method ZoomIn()
      requires Valid()
      modifies this
      ensures zoom == ZoomedIn(old(zoom)) && Valid()
    {
      zoom := ZoomedIn(zoom);
    }

    function CurrentScale(): (s: real)
      reads this
      requires Valid()
      ensures 0.5 <= s <= 2.0
    {
      Scale(zoom)
    }
  }
}
