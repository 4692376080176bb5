/**
 * The `stitch` entry point: parse the path list, load every image, configure and run the
 * stitching engine, and route the composite through the auto-crop (when asked) to the
 * encoder. Image decoding, the engine and image encoding are foreign library calls and are
 * parameters here; only the outcome each of them reports matters.
 */
module Dispatch {
  import opened Basics
  import opened Images
  import opened Crop
  import opened PathList
  import opened Config

  /** `Stitcher::OK`. */
  const StatusOk := 0

  /** What `stitcher->stitch(mat_list, result)` does: return a status with the composite it
    * filled in, or throw a `cv::Exception`. */
  datatype EngineResult = Finished(status: int, pano: ColorImage) | EngineRaised

  /** What `imwrite` does: return whether it wrote the file, or throw a `cv::Exception`
    * (no encoder for the extension). */
  datatype WriteResult = Written(ok: bool) | WriteRaised

  /** The foreign collaborators: `imread` (an empty image when decoding fails), the engine,
    * the gray weighting of `cvtColor`, and `imwrite`. */
  datatype Env = Env(
    imread: string -> ColorImage,
    engine: (seq<ColorImage>, StitchConfig) -> EngineResult,
    luma: Pixel -> Byte,
    imwrite: (string, ColorImage) -> WriteResult)

  /** `stitch` either returns its boolean, having handed `written` (if anything) to
    * `imwrite`, or is left by an exception it does not catch. */
  datatype StitchOutcome = Returned(success: bool, written: Option<ColorImage>) | Aborted

  /** Every path decodes to a non-empty image. */
  predicate AllLoad(paths: seq<string>, imread: string -> ColorImage)
  {
    forall i :: 0 <= i < |paths| ==> !imread(paths[i]).IsEmpty()
  }

  /** The loaded list: every image, converted BGR to RGB and in path order, if all of them
    * decode; otherwise nothing at all. */
  function LoadAll(paths: seq<string>, imread: string -> ColorImage): (imgs: seq<ColorImage>)
    ensures imgs == [] || |imgs| == |paths|
  {
    if AllLoad(paths, imread) then seq(|paths|, i requires 0 <= i < |paths| => SwapRB(imread(paths[i])))
    else []
  }

  /** `convert_to_matlist(img_list, false)`: read each path in turn, stop at the first one
    * that does not decode, and then return an empty list instead of the partial one. */
  method ConvertToMatList(imgList: seq<string>, imread: string -> ColorImage) returns (imgVec: seq<ColorImage>)
    ensures imgVec != [] <==> imgList != [] && AllLoad(imgList, imread)
    ensures imgVec != [] ==> |imgVec| == |imgList| && forall i :: 0 <= i < |imgList| ==> imgVec[i] == SwapRB(imread(imgList[i]))
    ensures imgVec == LoadAll(imgList, imread)
  {
    imgVec := [];
    var imagesExist := true;
    var k := 0;
    while k < |imgList|
      invariant 0 <= k <= |imgList| && |imgVec| == k
      invariant forall i :: 0 <= i < k ==> !imread(imgList[i]).IsEmpty() && imgVec[i] == SwapRB(imread(imgList[i]))
    {
      var input := imread(imgList[k]);
      if input.IsEmpty() {
        imagesExist := false;
        break;
      }
      imgVec := imgVec + [SwapRB(input)];
      k := k + 1;
    }
    if !imagesExist {
      imgVec := [];
      return;
    }
  }

  /** Hand the final image to `imwrite`; its boolean is ignored, its exception is caught. */
  function WriteOut(path: string, img: ColorImage, env: Env): (r: StitchOutcome)
    ensures r == Returned(!env.imwrite(path, img).WriteRaised?, Some(img))
  {
    match env.imwrite(path, img)
    case WriteRaised => Returned(false, Some(img))
    case Written(_) => Returned(true, Some(img))
  }

  /** `stitch(...)`. */
  function Stitch(a: StitchArgs, env: Env): (r: StitchOutcome)
    ensures r.Aborted? <==> a.inputImagePath == []
    ensures r.Returned? && r.success ==> r.written.Some?
  {
    match GetPathList(a.inputImagePath)
    case None => Aborted
    case Some(paths) =>
      var matList := LoadAll(paths, env.imread);
      if matList == [] then Returned(false, None)
      else
        var cfg := Configure(a, |matList|);
        match env.engine(matList, cfg)
        case EngineRaised => Returned(false, None)
        case Finished(status, pano) =>
          if status != StatusOk then Returned(false, None)
          // `cvtColor(result, result, COLOR_RGB2BGR)` rejects an empty composite with a
          // `cv::Exception`, which the same handler catches.
          else if pano.IsEmpty() then Returned(false, None)
          else
            var result := SwapRB(pano);
            if a.cropped then
              match CropResult(result, env.luma)
              case None => Returned(false, None)
              case Some(withoutBlackBg) => WriteOut(a.outputImagePath, withoutBlackBg, env)
            else
              // `result(Rect(0, 0, cols, rows))`: the whole composite.
              WriteOut(a.outputImagePath, result, env)
  }

  // Which inputs make `stitch` return true, and what it writes.

  /** The paths `stitch` reads for a non-empty path-list argument. */
  function PathsOf(a: StitchArgs): seq<string>
    requires a.inputImagePath != []
  {
    Tokens(Inner(a.inputImagePath))
  }

  /** What the engine reports when it is called on the loaded images. */
  function EngineRun(a: StitchArgs, env: Env): EngineResult
    requires a.inputImagePath != []
  {
    var paths := PathsOf(a);
    env.engine(LoadAll(paths, env.imread), Configure(a, |paths|))
  }

  /** The engine is reached and reports a non-empty composite with status OK: the path list
    * is not empty and every image decodes. */
  predicate EngineComposes(a: StitchArgs, env: Env)
  {
    a.inputImagePath != [] && PathsOf(a) != [] && AllLoad(PathsOf(a), env.imread)
    && EngineRun(a, env).Finished? && EngineRun(a, env).status == StatusOk
    && !EngineRun(a, env).pano.IsEmpty()
  }

  /** The composite in the encoder's channel order. */
  function Composite(a: StitchArgs, env: Env): ColorImage
    requires EngineComposes(a, env)
  {
    SwapRB(EngineRun(a, env).pano)
  }

  /** When cropping is requested, the auto-crop finds a region. */
  predicate CropSucceeds(a: StitchArgs, env: Env)
    requires EngineComposes(a, env)
  {
    a.cropped ==> AutoCrop(ToGray(Composite(a, env), env.luma)).Some?
  }

  /** The image handed to `imwrite`: the accepted region of the composite when cropping,
    * the whole composite otherwise. */
  function FinalImage(a: StitchArgs, env: Env): ColorImage
    requires EngineComposes(a, env) && CropSucceeds(a, env)
  {
    var c := Composite(a, env);
    if a.cropped then Restrict(c, AutoCrop(ToGray(c, env.luma)).value) else c
  }

  /** Every way `stitch` fails before writing, and what it writes otherwise. */
  lemma StitchOutcomes(a: StitchArgs, env: Env)
    requires a.inputImagePath != []
    // a missing image, an empty path list, an engine error status or exception
    ensures !EngineComposes(a, env) ==> Stitch(a, env) == Returned(false, None)
    // the crop finds no region
    ensures EngineComposes(a, env) && !CropSucceeds(a, env) ==> Stitch(a, env) == Returned(false, None)
    // otherwise the result only depends on whether `imwrite` throws, not on what it returns
    ensures EngineComposes(a, env) && CropSucceeds(a, env) ==>
      var img := FinalImage(a, env);
      Stitch(a, env) == Returned(!env.imwrite(a.outputImagePath, img).WriteRaised?, Some(img))
  {
  }

  /** `stitch` returns true exactly when the engine composes, the crop (if asked for) finds a
    * region and `imwrite` does not throw. */
  lemma StitchSucceedsIff(a: StitchArgs, env: Env)
    ensures Stitch(a, env).Returned? && Stitch(a, env).success <==>
      EngineComposes(a, env) && CropSucceeds(a, env)
      && !env.imwrite(a.outputImagePath, FinalImage(a, env)).WriteRaised?
  {
    if a.inputImagePath != [] {
      StitchOutcomes(a, env);
    }
  }

  /** A successful stitch writes an image no larger than the composite; without cropping it
    * writes the whole composite. */
  lemma WrittenImageBounds(a: StitchArgs, env: Env)
    requires Stitch(a, env).Returned? && Stitch(a, env).success
    ensures EngineComposes(a, env)
    ensures Stitch(a, env).written.Some?
    ensures Stitch(a, env).written.value.rows <= Composite(a, env).rows
    ensures Stitch(a, env).written.value.cols <= Composite(a, env).cols
    ensures !a.cropped ==> Stitch(a, env).written == Some(Composite(a, env))
  {
    StitchSucceedsIff(a, env);
    StitchOutcomes(a, env);
  }

  /** One path that does not decode is enough to fail, whatever the engine would do. */
  lemma MissingImageFails(a: StitchArgs, env: Env, i: nat)
    requires a.inputImagePath != [] && i < |PathsOf(a)| && env.imread(PathsOf(a)[i]).IsEmpty()
    ensures Stitch(a, env) == Returned(false, None)
  {
    StitchOutcomes(a, env);
  }
}
