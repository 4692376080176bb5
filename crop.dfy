/**
 * Border auto-crop of a stitched composite: `checkBlackRow`, `checkBlackColumn` and
 * `cropWithMat`. The composite is converted to gray, a region of interest starts as the
 * whole image, and every boundary line of the region that is "black" moves inward by one
 * until all four pass or the region collapses.
 *
 * The scanning is reproduced literally, including two quirks of the original:
 *  - a row is scanned over columns [rect.x, rect.w) and a column over rows [rect.y, rect.h),
 *    that is up to the rectangle's WIDTH/HEIGHT and not up to x + width / y + height;
 *  - the zero count is compared against the full image dimension (columns for a row, rows
 *    for a column), not against the length of the scanned segment.
 * An empty scan range counts no zeros, so such an edge passes.
 */
module Crop {
  import opened Basics
  import opened Images

  /** The original's `(zeroCount / (float)dim) > 0.05` is false. For `dim > 0` this is
    * `20 * count < dim` (a ratio of exactly 5% counts as black, because 0.05f exceeds the
    * double 0.05); it is exact for every dimension below 2^24. For `dim == 0` the float
    * quotient is NaN (no zeros; the test fails, so the edge passes) or infinite (black). */
  predicate NotBlack(count: nat, dim: nat)
  {
    if dim == 0 then count == 0 else 20 * count < dim
  }

  /** The scan of row `y` over columns [lo, hi) reads only pixels of the image. */
  predicate RowReadable(g: GrayImage, y: int, lo: int, hi: int)
  {
    lo >= hi || (0 <= y < g.rows && 0 <= lo && hi <= g.cols)
  }

  /** The scan of column `x` over rows [lo, hi) reads only pixels of the image. */
  predicate ColReadable(g: GrayImage, x: int, lo: int, hi: int)
  {
    lo >= hi || (0 <= x < g.cols && 0 <= lo && hi <= g.rows)
  }

  /** Number of zero pixels of row `y` at columns [lo, hi). */
  function RowZeros(g: GrayImage, y: int, lo: int, hi: int): (n: nat)
    requires RowReadable(g, y, lo, hi)
    ensures n <= if lo < hi then hi - lo else 0
    decreases hi - lo
  {
    if hi <= lo then 0
    else RowZeros(g, y, lo, hi - 1) + (if g.px[y][hi - 1] == 0 then 1 else 0)
  }

  /** Number of zero pixels of column `x` at rows [lo, hi). */
  function ColZeros(g: GrayImage, x: int, lo: int, hi: int): (n: nat)
    requires ColReadable(g, x, lo, hi)
    ensures n <= if lo < hi then hi - lo else 0
    decreases hi - lo
  {
    if hi <= lo then 0
    else ColZeros(g, x, lo, hi - 1) + (if g.px[hi - 1][x] == 0 then 1 else 0)
  }

  /** Row `y` is not black when scanned with region `rect`. */
  predicate RowOk(g: GrayImage, y: int, rect: Rect)
    requires RowReadable(g, y, rect.x, rect.w)
  {
    NotBlack(RowZeros(g, y, rect.x, rect.w), g.cols)
  }

  /** Column `x` is not black when scanned with region `rect`. */
  predicate ColOk(g: GrayImage, x: int, rect: Rect)
    requires ColReadable(g, x, rect.y, rect.h)
  {
    NotBlack(ColZeros(g, x, rect.y, rect.h), g.rows)
  }

  /** `checkBlackRow(roi, y, rect)`: true when row `y` is not black. */
  method CheckBlackRow(roi: GrayImage, y: int, rect: Rect) returns (notBlack: bool)
    requires RowReadable(roi, y, rect.x, rect.w)
    ensures notBlack == RowOk(roi, y, rect)
  {
    var zeroCount := 0;
    var x := rect.x;
    // Literal range: up to rect.w, not rect.x + rect.w.
    while x < rect.w
      invariant rect.x <= x <= if rect.x < rect.w then rect.w else rect.x
      invariant RowReadable(roi, y, rect.x, x)
      invariant zeroCount == RowZeros(roi, y, rect.x, x)
    {
      if roi.px[y][x] == 0 {
        zeroCount := zeroCount + 1;
      }
      x := x + 1;
    }
    // Literal normalisation: by the image's column count, not by the scanned length.
    notBlack := NotBlack(zeroCount, roi.cols);
  }

  /** `checkBlackColumn(roi, x, rect)`: true when column `x` is not black. */
  method CheckBlackColumn(roi: GrayImage, x: int, rect: Rect) returns (notBlack: bool)
    requires ColReadable(roi, x, rect.y, rect.h)
    ensures notBlack == ColOk(roi, x, rect)
  {
    var zeroCount := 0;
    var y := rect.y;
    // Literal range: up to rect.h, not rect.y + rect.h.
    while y < rect.h
      invariant rect.y <= y <= if rect.y < rect.h then rect.h else rect.y
      invariant ColReadable(roi, x, rect.y, y)
      invariant zeroCount == ColZeros(roi, x, rect.y, y)
    {
      if roi.px[y][x] == 0 {
        zeroCount := zeroCount + 1;
      }
      y := y + 1;
    }
    // Literal normalisation: by the image's row count, not by the scanned length.
    notBlack := NotBlack(zeroCount, roi.rows);
  }

  /** The verdicts of the four edge tests of one pass (true: the edge is not black). */
  datatype EdgeTests = EdgeTests(top: bool, left: bool, bottom: bool, right: bool)
  {
    predicate AllPass()
    {
      top && left && bottom && right
    }
  }

  /** The four tests of `cropWithMat` on region `r`: top row `y`, left column `x`,
    * bottom row `y + h - 1` and right column `x + w - 1`, each scanned with `r` itself. */
  function Edges(g: GrayImage, r: Rect): EdgeTests
    requires Inside(g, r)
  {
    EdgeTests(RowOk(g, r.y, r), ColOk(g, r.x, r), RowOk(g, r.y + r.h - 1, r), ColOk(g, r.x + r.w - 1, r))
  }

  /** The region is final: none of its four boundary lines is black. */
  predicate Accepts(g: GrayImage, r: Rect)
    requires Inside(g, r)
  {
    Edges(g, r).AllPass()
  }

  /** One shrinking pass: each failing boundary line moves inward by one, independently of
    * the others, and a passing one stays where it is. */
  function Shrink(r: Rect, e: EdgeTests): (n: Rect)
    // left edge x, top edge y, right edge x + w - 1, bottom edge y + h - 1
    ensures n.x == r.x + (if e.left then 0 else 1)
    ensures n.y == r.y + (if e.top then 0 else 1)
    ensures n.x + n.w == r.x + r.w - (if e.right then 0 else 1)
    ensures n.y + n.h == r.y + r.h - (if e.bottom then 0 else 1)
    ensures n == r <==> e.AllPass()
    ensures !e.AllPass() ==> n.w + n.h < r.w + r.h
  {
    var left := if e.left then 0 else 1;
    var top := if e.top then 0 else 1;
    var right := if e.right then 0 else 1;
    var bottom := if e.bottom then 0 else 1;
    Rect(r.x + left, r.y + top, r.w - left - right, r.h - top - bottom)
  }

  /** The outcome of the `while (1)` loop of `cropWithMat` started from region `r`:
    * the accepted region, or `None` once a width or height drops to zero or below. */
  function CropFrom(g: GrayImage, r: Rect): (res: Option<Rect>)
    requires Inside(g, r)
    ensures res.Some? ==> Inside(g, res.value) && Accepts(g, res.value) && Nested(res.value, r)
    decreases r.w + r.h
  {
    if Accepts(g, r) then Some(r)
    else
      var n := Shrink(r, Edges(g, r));
      if n.w <= 0 || n.h <= 0 then None else CropFrom(g, n)
  }

  /** The region `cropWithMat` settles on for a non-empty gray image. */
  function AutoCrop(g: GrayImage): (res: Option<Rect>)
    requires !g.IsEmpty()
    ensures res.Some? ==> Inside(g, res.value) && Accepts(g, res.value)
  {
    CropFrom(g, Full(g))
  }

  /** The crop outcome on a colour composite: `dest` is `src` restricted to the accepted region. */
  function CropResult(src: ColorImage, luma: Pixel -> Byte): (res: Option<ColorImage>)
    requires !src.IsEmpty()
    ensures res.Some? <==> AutoCrop(ToGray(src, luma)).Some?
    ensures res.Some? ==> res.value.rows <= src.rows && res.value.cols <= src.cols
  {
    var gray := ToGray(src, luma);
    match AutoCrop(gray)
    case None => None
    case Some(r) => Some(Restrict(src, r))
  }

  /** The four edge tests at the head of the loop of `cropWithMat`. */
  method TestEdges(gray: GrayImage, roiRect: Rect) returns (edges: EdgeTests)
    requires Inside(gray, roiRect)
    ensures edges == Edges(gray, roiRect)
  {
    var isTopNotBlack := CheckBlackRow(gray, roiRect.y, roiRect);
    var isLeftNotBlack := CheckBlackColumn(gray, roiRect.x, roiRect);
    var isBottomNotBlack := CheckBlackRow(gray, roiRect.y + roiRect.h - 1, roiRect);
    var isRightNotBlack := CheckBlackColumn(gray, roiRect.x + roiRect.w - 1, roiRect);
    edges := EdgeTests(isTopNotBlack, isLeftNotBlack, isBottomNotBlack, isRightNotBlack);
  }

  /** The in-place updates of the region's fields for the edges that failed
    * (moving the left or top edge also shrinks the width or height to compensate). */
  method ShrinkRoi(roi: Rect, e: EdgeTests) returns (n: Rect)
    ensures n == Shrink(roi, e)
  {
    n := roi;
    if !e.left {
      n := n.(x := n.x + 1, w := n.w - 1);
    }
    if !e.top {
      n := n.(y := n.y + 1, h := n.h - 1);
    }
    if !e.right {
      n := n.(w := n.w - 1);
    }
    if !e.bottom {
      n := n.(h := n.h - 1);
    }
  }

  /** The `while (1)` loop of `cropWithMat`: starting from the whole image, test the four
    * boundary lines of the region and shrink it until they all pass or it collapses. */
  method SearchRegion(gray: GrayImage) returns (res: Option<Rect>)
    requires !gray.IsEmpty()
    ensures res == AutoCrop(gray)
  {
    var roiRect := Rect(0, 0, gray.cols, gray.rows);
    while true
      invariant Inside(gray, roiRect)
      invariant CropFrom(gray, roiRect) == AutoCrop(gray)
      decreases roiRect.w + roiRect.h
    {
      var edges := TestEdges(gray, roiRect);
      if edges.AllPass() {
        return Some(roiRect);
      }
      roiRect := ShrinkRoi(roiRect, edges);
      if roiRect.w <= 0 || roiRect.h <= 0 {
        return None;
      }
    }
  }

  /** `cropWithMat(src, dest)`: convert to gray, search the region, copy it out of `src`.
    * The caller's `cvtColor` has already rejected an empty `src`. */
  method CropWithMat(src: ColorImage, luma: Pixel -> Byte) returns (ok: bool, dest: ColorImage)
    requires !src.IsEmpty()
    ensures ok == CropResult(src, luma).Some?
    ensures ok ==> dest == CropResult(src, luma).value
  {
    var gray := ToGray(src, luma);
    var region := SearchRegion(gray);
    match region
    case Some(roiRect) =>
      ok, dest := true, Restrict(src, roiRect);
    case None =>
      ok, dest := false, Empty();
  }

  // Properties of the auto-crop.

  /** The threshold in exact arithmetic: a line passes exactly when its zeros are strictly
    * fewer than 5% of the image dimension, so exactly 5% is black; and more zeros never
    * turn a black line into a passing one. */
  lemma NotBlackMeaning(count: nat, dim: nat)
    ensures dim > 0 ==> (NotBlack(count, dim) <==> (count as real) < 0.05 * (dim as real))
    ensures dim == 0 ==> (NotBlack(count, dim) <==> count == 0)
    ensures forall fewer: nat :: fewer <= count && NotBlack(count, dim) ==> NotBlack(fewer, dim)
  {
  }

  /** No pixel of the gray image is zero. */
  predicate NoZeroPixel(g: GrayImage)
  {
    forall i, j :: 0 <= i < g.rows && 0 <= j < g.cols ==> g.px[i][j] != 0
  }

  /** Every pixel of the gray image is zero. */
  predicate AllZeroPixels(g: GrayImage)
  {
    forall i, j :: 0 <= i < g.rows && 0 <= j < g.cols ==> g.px[i][j] == 0
  }

  lemma {:induction false} NoZeroRow(g: GrayImage, y: int, lo: int, hi: int)
    requires RowReadable(g, y, lo, hi) && forall x :: lo <= x < hi ==> g.px[y][x] != 0
    ensures RowZeros(g, y, lo, hi) == 0
    decreases hi - lo
  {
    if lo < hi {
      NoZeroRow(g, y, lo, hi - 1);
    }
  }

  lemma {:induction false} NoZeroColumn(g: GrayImage, x: int, lo: int, hi: int)
    requires ColReadable(g, x, lo, hi) && forall y :: lo <= y < hi ==> g.px[y][x] != 0
    ensures ColZeros(g, x, lo, hi) == 0
    decreases hi - lo
  {
    if lo < hi {
      NoZeroColumn(g, x, lo, hi - 1);
    }
  }

  /** A composite without any black pixel is not cropped: the region stays the whole image. */
  lemma CleanImageKeepsFullFrame(g: GrayImage)
    requires !g.IsEmpty() && NoZeroPixel(g)
    ensures AutoCrop(g) == Some(Full(g))
  {
    var r := Full(g);
    NoZeroRow(g, r.y, r.x, r.w);
    NoZeroRow(g, r.y + r.h - 1, r.x, r.w);
    NoZeroColumn(g, r.x, r.y, r.h);
    NoZeroColumn(g, r.x + r.w - 1, r.y, r.h);
  }

  /** Row `y` is zero at columns [lo, hi). */
  predicate RowZeroOn(g: GrayImage, y: int, lo: int, hi: int)
  {
    RowReadable(g, y, lo, hi) && forall x :: lo <= x < hi ==> g.px[y][x] == 0
  }

  /** Column `x` is zero at rows [lo, hi). */
  predicate ColZeroOn(g: GrayImage, x: int, lo: int, hi: int)
  {
    ColReadable(g, x, lo, hi) && forall y :: lo <= y < hi ==> g.px[y][x] == 0
  }

  lemma {:induction false} AllZeroRow(g: GrayImage, y: int, lo: int, hi: int)
    requires RowZeroOn(g, y, lo, hi)
    ensures RowZeros(g, y, lo, hi) == if lo < hi then hi - lo else 0
    decreases hi - lo
  {
    if lo < hi {
      AllZeroRow(g, y, lo, hi - 1);
    }
  }

  lemma {:induction false} AllZeroColumn(g: GrayImage, x: int, lo: int, hi: int)
    requires ColZeroOn(g, x, lo, hi)
    ensures ColZeros(g, x, lo, hi) == if lo < hi then hi - lo else 0
    decreases hi - lo
  {
    if lo < hi {
      AllZeroColumn(g, x, lo, hi - 1);
    }
  }

  /** The region after `k` shrinking passes of an `n` by `n` image whose four edges all
    * fail on every pass. */
  function Ring(n: int, k: int): Rect
  {
    Rect(k, k, n - 2 * k, n - 2 * k)
  }

  /** The four lines the tests of `Ring(n, k)` scan, over the scan range [k, n - 2k), are
    * all zero. */
  predicate RingBlack(g: GrayImage, n: int, k: int)
  {
    g.rows == n && g.cols == n && 0 <= k && 2 * k < n
    && RowZeroOn(g, k, k, n - 2 * k) && RowZeroOn(g, n - k - 1, k, n - 2 * k)
    && ColZeroOn(g, k, k, n - 2 * k) && ColZeroOn(g, n - k - 1, k, n - 2 * k)
  }

  /** Where the loop of `cropWithMat` ends when it is at `Ring(n, k)`. */
  function RingOutcome(g: GrayImage, n: int, k: int): Option<Rect>
    requires g.rows == n && g.cols == n && 0 <= k && 2 * k < n
  {
    CropFrom(g, Ring(n, k))
  }

  /** One pass over `Ring(n, k)` whose scanned lines are zero and n - 3k long, at least
    * 5% of n (that is, 60k <= 19n): all four edges fail and move inward by one. */
  lemma RingStep(g: GrayImage, n: int, k: int)
    requires RingBlack(g, n, k) && 60 * k <= 19 * n && 2 * (k + 1) < n
    ensures RingOutcome(g, n, k) == RingOutcome(g, n, k + 1)
  {
    var r := Ring(n, k);
    var lo, hi, far := k, n - 2 * k, n - k - 1;
    assert r.y + r.h - 1 == far && r.x + r.w - 1 == far;
    AllZeroRow(g, lo, lo, hi);
    AllZeroRow(g, far, lo, hi);
    AllZeroColumn(g, lo, lo, hi);
    AllZeroColumn(g, far, lo, hi);
    assert Edges(g, r) == EdgeTests(false, false, false, false);
    assert Shrink(r, Edges(g, r)) == Ring(n, k + 1);
  }

  /** The rings `k` up to `m` (exclusive) all have zero scanned lines. */
  predicate BlackRings(g: GrayImage, n: int, k: int, m: int)
  {
    forall j :: k <= j < m ==> RingBlack(g, n, j)
  }

  /** Passes `k` up to `m` all move the four edges inward. */
  lemma {:induction false} RingsShrink(g: GrayImage, n: int, k: int, m: int)
    requires g.rows == n && g.cols == n && 0 <= k <= m && 2 * m < n
    requires k < m ==> 60 * (m - 1) <= 19 * n
    requires BlackRings(g, n, k, m)
    ensures RingOutcome(g, n, k) == RingOutcome(g, n, m)
    decreases m - k
  {
    if k < m {
      RingStep(g, n, k);
      RingsShrink(g, n, k + 1, m);
    }
  }

  /** A scan whose range is empty counts no zero and passes, whatever the pixels. */
  lemma EmptyScanPasses(g: GrayImage, r: Rect)
    requires Inside(g, r) && r.w <= r.x && r.h <= r.y
    ensures Accepts(g, r)
  {
  }

  /** The zero pixels of the `n` by `n` image are exactly a frame `t` pixels wide. */
  predicate BlackFrame(g: GrayImage, n: int, t: int)
  {
    g.rows == n && g.cols == n
    && forall i, j :: 0 <= i < n && 0 <= j < n ==>
      (g.px[i][j] == 0 <==> i < t || n - t <= i || j < t || n - t <= j)
  }

  /** What the auto-crop is for: a black frame around a zero-free picture is cut away
    * exactly, as long as the frame is thin enough (60(t - 1) <= 19n) for the shortened
    * scans to keep seeing at least 5% zeros on every pass. */
  lemma ThinFrameCroppedToInterior(g: GrayImage, n: int, t: nat)
    requires BlackFrame(g, n, t) && 2 * t < n && 60 * (t - 1) <= 19 * n
    ensures !g.IsEmpty()
    ensures AutoCrop(g) == Some(Rect(t, t, n - 2 * t, n - 2 * t))
  {
    forall j | 0 <= j < t
      ensures RingBlack(g, n, j)
    {
    }
    assert Full(g) == Ring(n, 0);
    RingsShrink(g, n, 0, t);
    InteriorAccepted(g, n, t);
  }

  /** The region just inside the frame scans only zero-free pixels, so it is accepted. */
  lemma InteriorAccepted(g: GrayImage, n: int, t: nat)
    requires BlackFrame(g, n, t) && 2 * t < n
    ensures Inside(g, Ring(n, t)) && CropFrom(g, Ring(n, t)) == Some(Ring(n, t))
  {
    var r := Ring(n, t);
    var lo, hi, far := t, n - 2 * t, n - t - 1;
    assert r.y + r.h - 1 == far && r.x + r.w - 1 == far;
    NoZeroRow(g, lo, lo, hi);
    NoZeroRow(g, far, lo, hi);
    NoZeroColumn(g, lo, lo, hi);
    NoZeroColumn(g, far, lo, hi);
    assert Accepts(g, r);
  }

  /** Every pixel on the four boundary lines of `r` is zero. */
  predicate BoundaryBlack(g: GrayImage, r: Rect)
  {
    Inside(g, r)
    && (forall j :: r.x <= j < r.x + r.w ==> g.px[r.y][j] == 0 && g.px[r.y + r.h - 1][j] == 0)
    && (forall i :: r.y <= i < r.y + r.h ==> g.px[i][r.x] == 0 && g.px[i][r.x + r.w - 1] == 0)
  }

  /** A frame at least `m` pixels wide where `m` passes of shrinking make the scan ranges
    * empty (n <= 3m) is never seen through: the crop settles on `Ring(n, m)`, and when the
    * frame is wider than `m` the boundary lines of that region are entirely black. */
  lemma ScansRunOut(g: GrayImage, n: int, t: int, m: int)
    requires BlackFrame(g, n, t) && 1 <= m <= t && 2 * m < n <= 3 * m && 60 * (m - 1) <= 19 * n
    ensures !g.IsEmpty()
    ensures AutoCrop(g) == Some(Ring(n, m))
    ensures m < t ==> BoundaryBlack(g, Ring(n, m))
  {
    forall j | 0 <= j < m
      ensures RingBlack(g, n, j)
    {
    }
    assert Full(g) == Ring(n, 0);
    RingsShrink(g, n, 0, m);
    EmptyScanPasses(g, Ring(n, m));
  }

  /** A thick frame is not cut away: with a 5-pixel frame around a 2 by 2 picture in a
    * 12 by 12 image, the crop settles on (4, 4, 4, 4), all four of whose boundary lines
    * are black. */
  lemma ThickFrameNotRemoved(g: GrayImage)
    requires BlackFrame(g, 12, 5)
    ensures AutoCrop(g) == Some(Rect(4, 4, 4, 4))
    ensures BoundaryBlack(g, Rect(4, 4, 4, 4))
  {
    ScansRunOut(g, 12, 5, 4);
  }

  /** Because the scans stop at the width and height rather than at x + width and y + height,
    * an all-black 30 by 30 composite is NOT rejected: the crop settles on (10, 10, 10, 10),
    * where the scan ranges have become empty. */
  lemma AllBlack30Accepted(g: GrayImage)
    requires g.rows == 30 && g.cols == 30 && AllZeroPixels(g)
    ensures AutoCrop(g) == Some(Rect(10, 10, 10, 10))
  {
    assert BlackFrame(g, 30, 30);
    ScansRunOut(g, 30, 30, 10);
  }
}
