/** Redaction of an image: validation, the bounds check, and overwriting outward-rounded rectangles.
    Coordinates are reals and a pixel is an opaque colour value. */
module Redaction {
  import opened Outcomes

  type Pixel = int

  const BLACK: Pixel := 0

  /** image.Rectangle: the pixels (x, y) with minX <= x < maxX and minY <= y < maxY. */
  datatype Rect = Rect(minX: int, minY: int, maxX: int, maxY: int)

  datatype Region = Region(page: int, x: real, y: real, width: real, height: real)

  datatype RedactError = NoRegion | TooManyRegions | BadPage | Negative | NotPositive | NotPageOne | OutOfBounds

  const MAX_REDACTION_REGIONS := 50

  predicate In(x: int, y: int, r: Rect) {
    r.minX <= x < r.maxX && r.minY <= y < r.maxY
  }

  // ---- the checks ----

  predicate WellShaped(r: Region) {
    r.page >= 1 && r.x >= 0.0 && r.y >= 0.0 && r.width > 0.0 && r.height > 0.0
  }

  predicate Inside(r: Region, b: Rect) {
    && r.page == 1
    && r.x >= b.minX as real && r.y >= b.minY as real
    && r.x + r.width <= b.maxX as real && r.y + r.height <= b.maxY as real
  }

  method ValidateRedactionRegions(regions: seq<Region>) returns (error: Option<RedactError>)
    ensures error.None? <==> 1 <= |regions| <= 50 && forall r :: r in regions ==>
      r.page >= 1 && r.x >= 0.0 && r.y >= 0.0 && r.width > 0.0 && r.height > 0.0
    ensures (error == Some(NoRegion) <==> |regions| == 0) && (error == Some(TooManyRegions) <==> |regions| > 50)
  {
    if |regions| == 0 {
      return Some(NoRegion);
    }
    if |regions| > MAX_REDACTION_REGIONS {
      return Some(TooManyRegions);
    }
    for i := 0 to |regions|
      invariant forall r :: r in regions[..i] ==> WellShaped(r)
    {
      var r := regions[i];
      assert r in regions;
      if r.page < 1 {
        return Some(BadPage);
      }
      if r.x < 0.0 || r.y < 0.0 {
        return Some(Negative);
      }
      if r.width <= 0.0 || r.height <= 0.0 {
        return Some(NotPositive);
      }
    }
    assert regions[..|regions|] == regions;
    error := None;
  }

  /** The part of RedactDocument that compares the regions with the decoded image. */
  method CheckBounds(regions: seq<Region>, b: Rect) returns (error: Option<RedactError>)
    ensures error.None? <==> forall r :: r in regions ==>
      && r.page == 1 && r.x >= b.minX as real && r.y >= b.minY as real
      && r.x + r.width <= b.maxX as real && r.y + r.height <= b.maxY as real
  {
    for i := 0 to |regions|
      invariant forall r :: r in regions[..i] ==> Inside(r, b)
    {
      var r := regions[i];
      assert r in regions;
      if r.page != 1 {
        return Some(NotPageOne);
      }
      if r.x < b.minX as real || r.y < b.minY as real || r.x + r.width > b.maxX as real || r.y + r.height > b.maxY as real {
        return Some(OutOfBounds);
      }
    }
    assert regions[..|regions|] == regions;
    error := None;
  }

  // ---- rectangles ----

  function Ceil(r: real): int {
    -((-r).Floor)
  }

  function Min(a: int, b: int): int {
    if a < b then a else b
  }

  function Max(a: int, b: int): int {
    if a < b then b else a
  }

  /** image.Rect orders its corners. */
  function Ordered(x0: int, y0: int, x1: int, y1: int): Rect {
    Rect(Min(x0, x1), Min(y0, y1), Max(x0, x1), Max(y0, y1))
  }

  /** Rectangle.Intersect: an empty intersection is the zero rectangle. */
  function Intersect(r: Rect, s: Rect): (t: Rect)
    ensures forall x, y :: In(x, y, t) <==> In(x, y, r) && In(x, y, s)
  {
    var t := Rect(Max(r.minX, s.minX), Max(r.minY, s.minY), Min(r.maxX, s.maxX), Min(r.maxY, s.maxY));
    if t.minX >= t.maxX || t.minY >= t.maxY then Rect(0, 0, 0, 0) else t
  }

  /** The rectangle that is blackened for a region: rounded outward, and shifted by the image's origin. */
  function Mask(r: Region, b: Rect): Rect {
    Intersect(Ordered(b.minX + r.x.Floor, b.minY + r.y.Floor, b.minX + Ceil(r.x + r.width), b.minY + Ceil(r.y + r.height)), b)
  }

  predicate Masked(x: int, y: int, regions: seq<Region>, b: Rect) {
    exists r :: r in regions && In(x, y, Mask(r, b))
  }

  // ---- the image ----

  /** A pixel grid whose top left pixel has coordinates (minX, minY). */
  class Image {
    const bounds: Rect
    const pix: array2<Pixel>

    constructor (bounds: Rect)
      requires bounds.minX <= bounds.maxX && bounds.minY <= bounds.maxY
      ensures Valid() && this.bounds == bounds && fresh(pix)
    {
      this.bounds := bounds;
      pix := new Pixel[bounds.maxY - bounds.minY, bounds.maxX - bounds.minX];
    }

    predicate Valid() {
      pix.Length0 == bounds.maxY - bounds.minY && pix.Length1 == bounds.maxX - bounds.minX
    }

    function At(x: int, y: int): Pixel
      requires Valid() && In(x, y, bounds)
      reads pix
    {
      pix[y - bounds.minY, x - bounds.minX]
    }

    /** draw.Draw of a uniform colour over a rectangle within the bounds. */
    method Fill(r: Rect, colour: Pixel)
      requires Valid() && forall x, y :: In(x, y, r) ==> In(x, y, bounds)
      modifies pix
      ensures forall x, y :: In(x, y, bounds) ==> At(x, y) == if In(x, y, r) then colour else old(At(x, y))
    {
      if r.minX >= r.maxX || r.minY >= r.maxY {
        return;
      }
      assert In(r.minX, r.minY, r) && In(r.maxX - 1, r.maxY - 1, r);
      for y := r.minY to r.maxY
        invariant forall u, v :: In(u, v, bounds) ==> At(u, v) == if In(u, v, r) && v < y then colour else old(At(u, v))
      {
        for x := r.minX to r.maxX
          invariant forall u, v :: In(u, v, bounds) ==>
            At(u, v) == if In(u, v, r) && (v < y || (v == y && u < x)) then colour else old(At(u, v))
        {
          assert In(x, y, r);
          pix[y - bounds.minY, x - bounds.minX] := colour;
        }
      }
    }

    /** draw.Draw of a whole image of the same bounds. */
    method CopyFrom(src: Image)
      requires Valid() && src.Valid() && src.bounds == bounds && src.pix != pix
      modifies pix
      ensures forall x, y :: In(x, y, bounds) ==> At(x, y) == src.At(x, y)
    {
      forall i, j | 0 <= i < pix.Length0 && 0 <= j < pix.Length1 {
        pix[i, j] := src.pix[i, j];
      }
    }
  }

  /** A new image in which exactly the masked pixels are black and all others are the source's. */
  method ApplyRedactions(img: Image, regions: seq<Region>) returns (dst: Image)
    requires img.Valid() && img.bounds.minX <= img.bounds.maxX && img.bounds.minY <= img.bounds.maxY
    ensures fresh(dst) && fresh(dst.pix) && dst.Valid() && dst.bounds == img.bounds
    ensures forall x, y :: In(x, y, img.bounds) ==>
      dst.At(x, y) == if Masked(x, y, regions, img.bounds) then BLACK else img.At(x, y)
  {
    hide Mask;
    var bounds := img.bounds;
    dst := new Image(bounds);
    dst.CopyFrom(img);
    for i := 0 to |regions|
      invariant forall x, y :: In(x, y, bounds) ==>
        dst.At(x, y) == if Masked(x, y, regions[..i], bounds) then BLACK else img.At(x, y)
    {
      MaskInBounds(regions[i], bounds);
      OneMoreRegion(regions, i, bounds);
      dst.Fill(Mask(regions[i], bounds), BLACK);
    }
    assert regions[..|regions|] == regions;
  }

  lemma MaskInBounds(r: Region, b: Rect)
    ensures forall x, y :: In(x, y, Mask(r, b)) ==> In(x, y, b)
  {}

  lemma OneMoreRegion(regions: seq<Region>, i: nat, b: Rect)
    requires i < |regions|
    ensures forall x, y :: Masked(x, y, regions[..i + 1], b) <==> Masked(x, y, regions[..i], b) || In(x, y, Mask(regions[i], b))
  {
    hide Mask, In;
    assert forall r :: r in regions[..i + 1] <==> r in regions[..i] || r == regions[i];
  }

  /** The order of the regions, and repeating one, makes no difference. */
  lemma OrderIsIrrelevant(a: seq<Region>, b: seq<Region>, bounds: Rect)
    requires forall r :: r in a <==> r in b
    ensures forall x, y :: Masked(x, y, a, bounds) <==> Masked(x, y, b, bounds)
  {
    hide Mask, In;
  }

  // ---- covering ----

  /** The unit square of the pixel and the region have interior points in common. */
  predicate Overlaps(x: int, y: int, r: Region) {
    && x as real < r.x + r.width && r.x < (x + 1) as real
    && y as real < r.y + r.height && r.y < (y + 1) as real
  }

  /** The region passes both checks. */
  predicate Passes(r: Region, b: Rect) {
    WellShaped(r) && Inside(r, b)
  }

  /** Every pixel that a passing region touches is blackened for it. */
  ghost predicate Covers(b: Rect) {
    forall r, x, y :: Passes(r, b) && In(x, y, b) && Overlaps(x, y, r) ==> In(x, y, Mask(r, b))
  }

  /** A region touches exactly the pixels between its outward-rounded edges. */
  lemma TouchedPixels(p: real, extent: real, x: int)
    requires extent > 0.0
    ensures x as real < p + extent && p < (x + 1) as real <==> p.Floor <= x < Ceil(p + extent)
  {}

  /** With the origin at (0, 0) the mask is exactly the set of pixels the region touches. */
  lemma MaskAtOrigin(r: Region, b: Rect, x: int, y: int)
    requires Passes(r, b) && b.minX == 0 && b.minY == 0 && In(x, y, b)
    ensures In(x, y, Mask(r, b)) <==> Overlaps(x, y, r)
  {
    TouchedPixels(r.x, r.width, x);
    TouchedPixels(r.y, r.height, y);
  }

  /** Some region can pass the checks at all. */
  predicate CanPass(b: Rect) {
    Max(0, b.minX) < b.maxX && Max(0, b.minY) < b.maxY
  }

  /** The regions that pass are checked against absolute coordinates but masked relative to the origin: they are
      covered exactly when the origin is (0, 0), or when no region can pass. This is about applyRedactions as a function
      of any image: RedactDocument only accepts PNG and JPEG, whose decoders always place the origin at (0, 0). */
  lemma CoversIffAtOrigin(b: Rect)
    ensures Covers(b) <==> (b.minX == 0 && b.minY == 0) || !CanPass(b)
  {
    if b.minX == 0 && b.minY == 0 {
      forall r, x, y | Passes(r, b) && In(x, y, b) && Overlaps(x, y, r) ensures In(x, y, Mask(r, b)) {
        MaskAtOrigin(r, b, x, y);
      }
    } else if CanPass(b) {
      MissedPixel(b);
    }
  }

  /** The one-pixel region at the corner nearest to where the shift leads away from. */
  function Corner(b: Rect): Region {
    Region(1, (if b.minX > 0 then b.minX else b.maxX - 1) as real, (if b.minY > 0 then b.minY else b.maxY - 1) as real, 1.0, 1.0)
  }

  lemma MissedPixel(b: Rect)
    requires CanPass(b) && !(b.minX == 0 && b.minY == 0)
    ensures !Covers(b)
  {
    var r := Corner(b);
    var x, y := r.x.Floor, r.y.Floor;
    assert Ceil(r.x + r.width) == x + 1 && Ceil(r.y + r.height) == y + 1;
    assert Passes(r, b) && In(x, y, b) && Overlaps(x, y, r);
    assert !In(x, y, Mask(r, b));
  }

  /** For an image with origin (0, 0) and regions that pass the checks: every pixel a region touches is black in the
      result, and every other pixel is unchanged. */
  lemma RedactionCovers(regions: seq<Region>, b: Rect, x: int, y: int)
    requires b.minX == 0 && b.minY == 0 && In(x, y, b)
    requires forall r :: r in regions ==> Passes(r, b)
    ensures Masked(x, y, regions, b) <==> exists r :: r in regions && Overlaps(x, y, r)
  {
    hide Mask, Overlaps, Passes, In;
    forall r | r in regions ensures In(x, y, Mask(r, b)) <==> Overlaps(x, y, r) {
      MaskAtOrigin(r, b, x, y);
    }
  }
}
