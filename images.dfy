/**
 * Image buffers as the stitcher sees them: rectangular grids of pixels with explicit
 * dimensions (OpenCV's `cv::Mat`), the `cv::Rect` region of interest, and the few
 * whole-image operations the core applies (channel swap, gray conversion, ROI copy).
 */
module Images {

  /** An 8-bit channel value (`uchar`). */
  type Byte = x: int | 0 <= x < 256

  /** A three-channel pixel, channels in memory order. */
  datatype Pixel = Pixel(c0: Byte, c1: Byte, c2: Byte)

  /** A grid of `rows` lines of `cols` values each. */
  datatype Image<T> = Image(rows: nat, cols: nat, px: seq<seq<T>>)
  {
    predicate WellFormed()
    {
      |px| == rows && forall r :: 0 <= r < |px| ==> |px[r]| == cols
    }

    /** `Mat::empty()`: no pixel at all. */
    predicate IsEmpty()
    {
      rows == 0 || cols == 0
    }
  }

  /** Every image buffer handed around is rectangular. */
  type Raster<T> = img: Image<T> | img.WellFormed() witness Image(0, 0, [])

  type GrayImage = Raster<Byte>
  type ColorImage = Raster<Pixel>

  /** The empty `cv::Mat`. */
  function Empty<T>(): (e: Raster<T>)
    ensures e.IsEmpty()
  {
    Image(0, 0, [])
  }

  /** `cv::Rect(x, y, width, height)` with C `int` fields. */
  datatype Rect = Rect(x: int, y: int, w: int, h: int)

  /** The whole-image rectangle `Rect(0, 0, cols, rows)`. */
  function Full<T>(img: Raster<T>): Rect
  {
    Rect(0, 0, img.cols, img.rows)
  }

  /** A non-degenerate rectangle lying within the image. */
  predicate Inside<T>(img: Raster<T>, r: Rect)
  {
    0 <= r.x && 0 <= r.y && 0 < r.w && 0 < r.h && r.x + r.w <= img.cols && r.y + r.h <= img.rows
  }

  /** `Rect` `inner` lies within `outer`. */
  predicate Nested(inner: Rect, outer: Rect)
  {
    outer.x <= inner.x && outer.y <= inner.y
    && inner.x + inner.w <= outer.x + outer.w && inner.y + inner.h <= outer.y + outer.h
  }

  /** `src(rect).copyTo(dest)`: the region of interest as an image of its own. */
  function Restrict<T>(src: Raster<T>, r: Rect): (dest: Raster<T>)
    requires Inside(src, r)
    ensures dest.rows == r.h && dest.cols == r.w
    ensures forall i, j :: 0 <= i < r.h && 0 <= j < r.w ==> dest.px[i][j] == src.px[r.y + i][r.x + j]
  {
    Image(r.h, r.w, seq(r.h, i requires 0 <= i < r.h => src.px[r.y + i][r.x .. r.x + r.w]))
  }

  /** Swapping the first and third channel: `COLOR_BGR2RGB` and `COLOR_RGB2BGR` alike. */
  function SwapRB(img: ColorImage): (out: ColorImage)
    ensures out.rows == img.rows && out.cols == img.cols
    ensures forall i, j :: 0 <= i < img.rows && 0 <= j < img.cols ==>
      out.px[i][j] == Pixel(img.px[i][j].c2, img.px[i][j].c1, img.px[i][j].c0)
  {
    Image(img.rows, img.cols,
      seq(img.rows, i requires 0 <= i < img.rows =>
        seq(img.cols, j requires 0 <= j < img.cols =>
          Pixel(img.px[i][j].c2, img.px[i][j].c1, img.px[i][j].c0))))
  }

  /** The gray conversion applied pixel by pixel; the weighting `luma` is the library's and is a given. */
  function ToGray(img: ColorImage, luma: Pixel -> Byte): (gray: GrayImage)
    ensures gray.rows == img.rows && gray.cols == img.cols
    ensures forall i, j :: 0 <= i < img.rows && 0 <= j < img.cols ==> gray.px[i][j] == luma(img.px[i][j])
  {
    Image(img.rows, img.cols,
      seq(img.rows, i requires 0 <= i < img.rows =>
        seq(img.cols, j requires 0 <= j < img.cols => luma(img.px[i][j]))))
  }

  /** Swapping twice gives the original image back. */
  lemma SwapRBInvolution(img: ColorImage)
    ensures SwapRB(SwapRB(img)) == img
  {
    var twice := SwapRB(SwapRB(img));
    assert |twice.px| == |img.px|;
    forall i | 0 <= i < img.rows
      ensures twice.px[i] == img.px[i]
    {
      assert |twice.px[i]| == |img.px[i]|;
    }
  }
}
