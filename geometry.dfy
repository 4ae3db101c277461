/**
 * The rectangle arithmetic of the crop tool and the grid slicer
 * (scripts/tools.js).  All coordinates are exact reals; the source's
 * floating-point numbers are modelled without rounding error.
 */
module Geometry {

  /** An axis-aligned rectangle given by its top-left corner and its size, as fabric objects describe themselves. */
  datatype Box = Box(left: real, top: real, width: real, height: real) {

    function Right(): real { left + width }

    function Bottom(): real { top + height }

    /** Half-open containment of a point, so that rectangles that share an edge do not overlap. */
    predicate Contains(x: real, y: real) {
      left <= x < left + width && top <= y < top + height
    }

    /** This rectangle has non-negative size and lies within `outer`. */
    predicate Within(outer: Box) {
      0.0 <= width && 0.0 <= height &&
      outer.left <= left && left + width <= outer.left + outer.width &&
      outer.top <= top && top + height <= outer.top + outer.height
    }
  }

  /** `Math.round`: the nearest integer, halves rounded up. */
  function Round(x: real): (r: int)
    ensures x - 0.5 < r as real <= x + 0.5
  {
    (x + 0.5).Floor
  }

  function Min(a: real, b: real): real { if a <= b then a else b }

  function Max(a: real, b: real): real { if a <= b then b else a }

  // ---------------------------------------------------------------------
  // Crop frame
  // ---------------------------------------------------------------------

  /** The frame `initCrop` starts with: 80% of the image, centred in it (tools.js:105-108). */
  function InitialFrame(img: Box): (f: Box)
    ensures f.width == 0.8 * img.width && f.height == 0.8 * img.height
    ensures f.left - img.left == img.Right() - f.Right() && f.top - img.top == img.Bottom() - f.Bottom()
  {
    var w := img.width * 0.8;
    var h := img.height * 0.8;
    Box(img.left + (img.width - w) / 2.0, img.top + (img.height - h) / 2.0, w, h)
  }

  /** The initial frame is four fifths of the image on each axis, with equal margins on opposite sides, inside the image. */
  lemma InitialFrameCentred(img: Box)
    requires 0.0 <= img.width && 0.0 <= img.height
    ensures var f := InitialFrame(img);
            f.width == 0.8 * img.width && f.height == 0.8 * img.height &&
            f.left - img.left == img.Right() - f.Right() &&
            f.top - img.top == img.Bottom() - f.Bottom() &&
            f.Within(img)
  {
  }

  /**
   * The four mask bands around a frame: top, bottom, left and right, in that
   * order (tools.js:113-158 and again tools.js:233-259).  The top and bottom
   * bands span the full image width; the side bands span the frame's height.
   */
  function MaskBands(img: Box, f: Box): (bands: seq<Box>)
    ensures |bands| == 4
    ensures bands[0].left == img.left && bands[0].top == img.top && bands[0].width == img.width && bands[0].Bottom() == f.top
    ensures bands[1].left == img.left && bands[1].top == f.Bottom() && bands[1].width == img.width && bands[1].Bottom() == img.Bottom()
    ensures bands[2].left == img.left && bands[2].top == f.top && bands[2].height == f.height && bands[2].Right() == f.left
    ensures bands[3].left == f.Right() && bands[3].top == f.top && bands[3].height == f.height && bands[3].Right() == img.Right()
  {
    [ Box(img.left, img.top, img.width, f.top - img.top),
      Box(img.left, f.top + f.height, img.width, img.top + img.height - (f.top + f.height)),
      Box(img.left, f.top, f.left - img.left, f.height),
      Box(f.left + f.width, f.top, img.left + img.width - (f.left + f.width), f.height) ]
  }

  /** How many of `boxes` contain the point. */
  function CoverCount(boxes: seq<Box>, x: real, y: real): (n: nat)
    ensures n <= |boxes|
  {
    if boxes == [] then 0
    else (if boxes[0].Contains(x, y) then 1 else 0) + CoverCount(boxes[1..], x, y)
  }

  /** `CoverCount` of five rectangles, spelled out. */
  lemma {:induction false} CoverCountOfFive(b: seq<Box>, x: real, y: real)
    requires |b| == 5
    ensures CoverCount(b, x, y) ==
      (if b[0].Contains(x, y) then 1 else 0) + (if b[1].Contains(x, y) then 1 else 0) +
      (if b[2].Contains(x, y) then 1 else 0) + (if b[3].Contains(x, y) then 1 else 0) +
      (if b[4].Contains(x, y) then 1 else 0)
  {
    assert b[1..][1..] == b[2..] && b[2..][1..] == b[3..] && b[3..][1..] == b[4..];
    assert b[4..][1..] == [];
    assert CoverCount(b[4..], x, y) == (if b[4].Contains(x, y) then 1 else 0);
    assert CoverCount(b[3..], x, y) == (if b[3].Contains(x, y) then 1 else 0) + CoverCount(b[4..], x, y);
    assert CoverCount(b[2..], x, y) == (if b[2].Contains(x, y) then 1 else 0) + CoverCount(b[3..], x, y);
    assert CoverCount(b[1..], x, y) == (if b[1].Contains(x, y) then 1 else 0) + CoverCount(b[2..], x, y);
  }

  /**
   * While the frame lies within the image, the frame and its four bands tile
   * the image: every point of the image is covered by exactly one of the
   * five rectangles and no point outside the image is covered at all.
   */
  lemma {:induction false} MaskTilesImage(img: Box, f: Box, x: real, y: real)
    requires f.Within(img)
    ensures img.Contains(x, y) ==> CoverCount([f] + MaskBands(img, f), x, y) == 1
    ensures !img.Contains(x, y) ==> CoverCount([f] + MaskBands(img, f), x, y) == 0
  {
    var b := [f] + MaskBands(img, f);
    CoverCountOfFive(b, x, y);
  }

  /**
   * The bands all have non-negative width and height exactly when the frame
   * (of non-negative width) lies within an image of non-negative width.
   */
  lemma MaskBandsNonNegative(img: Box, f: Box)
    requires 0.0 <= f.width && 0.0 <= img.width
    ensures (forall b :: b in MaskBands(img, f) ==> 0.0 <= b.width && 0.0 <= b.height) <==> f.Within(img)
  {
    var bands := MaskBands(img, f);
    if f.Within(img) {
      forall b | b in bands ensures 0.0 <= b.width && 0.0 <= b.height {
      }
    } else {
      assert !(0.0 <= bands[0].height && 0.0 <= bands[1].height && 0.0 <= bands[2].width &&
               0.0 <= bands[3].width && 0.0 <= bands[2].height);
    }
  }

  /**
   * The origin `updateCropOverlays` moves a frame of effective size `w` x `h`
   * to (tools.js:211-221): past the left/top edge it snaps to that edge, past
   * the right/bottom edge it snaps so its far side is on that edge, and the
   * right/bottom test, made on the original position, wins over the left/top one.
   */
  function ClampLeft(img: Box, left: real, w: real): (r: real)
    ensures left + w > img.Right() ==> r + w == img.Right()
    ensures left + w <= img.Right() ==> r == Max(img.left, left)
  {
    var afterLeft := if left < img.left then img.left else left;
    if left + w > img.left + img.width then img.left + img.width - w else afterLeft
  }

  function ClampTop(img: Box, top: real, h: real): (r: real)
    ensures top + h > img.Bottom() ==> r + h == img.Bottom()
    ensures top + h <= img.Bottom() ==> r == Max(img.top, top)
  {
    var afterTop := if top < img.top then img.top else top;
    if top + h > img.top + img.height then img.top + img.height - h else afterTop
  }

  /** The frame of origin (left, top) and size w x h after the clamp. */
  function Clamped(img: Box, f: Box): (r: Box)
    ensures r.width == f.width && r.height == f.height
    ensures f.Right() > img.Right() ==> r.Right() == img.Right()
    ensures f.Bottom() > img.Bottom() ==> r.Bottom() == img.Bottom()
  {
    Box(ClampLeft(img, f.left, f.width), ClampTop(img, f.top, f.height), f.width, f.height)
  }

  /** A frame no larger than the image lies within it after the clamp. */
  lemma ClampedWithin(img: Box, f: Box)
    requires 0.0 <= f.width <= img.width && 0.0 <= f.height <= img.height
    ensures Clamped(img, f).Within(img)
  {
  }

  /** A frame already within the image is left where it is. */
  lemma ClampKeepsFrameWithin(img: Box, f: Box)
    requires f.Within(img)
    ensures Clamped(img, f) == f
  {
  }

  /** For a frame that fits, the clamp is the usual clamp of the origin into [edge, far edge - size]. */
  lemma ClampIsStandardWhenFits(img: Box, f: Box)
    requires 0.0 <= f.width <= img.width && 0.0 <= f.height <= img.height
    ensures Clamped(img, f).left == Max(img.left, Min(f.left, img.Right() - f.width))
    ensures Clamped(img, f).top == Max(img.top, Min(f.top, img.Bottom() - f.height))
  {
  }

  /** Clamping twice is clamping once, for a frame that fits. */
  lemma ClampIdempotentWhenFits(img: Box, f: Box)
    requires 0.0 <= f.width <= img.width && 0.0 <= f.height <= img.height
    ensures Clamped(img, Clamped(img, f)) == Clamped(img, f)
  {
    ClampedWithin(img, f);
    ClampKeepsFrameWithin(img, Clamped(img, f));
  }

  /**
   * A frame wider than the image that overhangs both sides is aligned on the
   * right edge (the right test wins), and the next clamp moves it to the left
   * edge: successive updates of such a frame alternate between the two.
   */
  lemma ClampAlternatesWhenTooWide(img: Box, f: Box)
    requires f.width > img.width && f.left < img.left && f.Right() > img.Right()
    ensures Clamped(img, f).left == img.Right() - f.width
    ensures Clamped(img, Clamped(img, f)).left == img.left
  {
  }

  // ---------------------------------------------------------------------
  // Grid slicing
  // ---------------------------------------------------------------------

  /** The tile in row `r`, column `c` of slices `sw` wide and `sh` high (tools.js:388-398). */
  function Tile(r: nat, c: nat, sw: real, sh: real): (t: Box)
    ensures t.width == sw && t.height == sh
    ensures t.left == c as real * sw && t.Right() == (c + 1) as real * sw
    ensures t.top == r as real * sh && t.Bottom() == (r + 1) as real * sh
  {
    Box(c as real * sw, r as real * sh, sw, sh)
  }

  /** For a positive step, `k * step <= x < (k + 1) * step` says exactly that `k` is the floor of `x / step`. */
  lemma {:induction false} StepFloor(x: real, step: real, k: int)
    requires step > 0.0
    ensures (k as real * step <= x < (k + 1) as real * step) <==> k == (x / step).Floor
  {
    var q := x / step;
    assert q * step == x;
    assert k as real * step <= x <==> k as real <= q by {
      assert x - k as real * step == (q - k as real) * step;
    }
    assert x < (k + 1) as real * step <==> q < (k + 1) as real by {
      assert (k + 1) as real * step - x == ((k + 1) as real - q) * step;
    }
  }

  /** A coordinate inside `[0, n * step)` falls in one of the `n` steps. */
  lemma {:induction false} FloorInRange(x: real, step: real, n: nat)
    requires step > 0.0 && 0.0 <= x < n as real * step
    ensures 0 <= (x / step).Floor < n
  {
    var q := x / step;
    assert q * step == x;
    assert 0.0 <= q < n as real;
  }

  /** A point lies in tile (i, j) exactly when i and j are the floors of its coordinates over the slice size. */
  lemma {:induction false} TileContains(i: nat, j: nat, sw: real, sh: real, x: real, y: real)
    requires sw > 0.0 && sh > 0.0
    ensures Tile(i, j, sw, sh).Contains(x, y) <==> i == (y / sh).Floor && j == (x / sw).Floor
  {
    StepFloor(x, sw, j);
    StepFloor(y, sh, i);
    assert (j + 1) as real * sw == j as real * sw + sw;
    assert (i + 1) as real * sh == i as real * sh + sh;
  }

  /**
   * The tiles of a `rows` x `cols` grid over a `width` x `height` canvas
   * partition it: a point of the canvas lies in the tile of row r, column c
   * exactly when r and c are the floors of its coordinates divided by the
   * slice size, and those floors name a tile of the grid.
   */
  lemma {:induction false} GridTiles(rows: nat, cols: nat, width: real, height: real, x: real, y: real)
    requires rows > 0 && cols > 0 && width > 0.0 && height > 0.0
    requires 0.0 <= x < width && 0.0 <= y < height
    ensures var sw, sh := width / cols as real, height / rows as real;
            var r, c := (y / sh).Floor, (x / sw).Floor;
            0 <= r < rows && 0 <= c < cols &&
            forall i: nat, j: nat :: i < rows && j < cols ==>
              (Tile(i, j, sw, sh).Contains(x, y) <==> i == r && j == c)
  {
    var sw, sh := width / cols as real, height / rows as real;
    assert cols as real * sw == width;
    assert rows as real * sh == height;
    FloorInRange(x, sw, cols);
    FloorInRange(y, sh, rows);
    forall i: nat, j: nat | i < rows && j < cols
      ensures Tile(i, j, sw, sh).Contains(x, y) <==> i == (y / sh).Floor && j == (x / sw).Floor
    {
      TileContains(i, j, sw, sh, x, y);
    }
  }
}
