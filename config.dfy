/**
 * The pipeline configuration of `stitch`: the integer option codes and the two confidence
 * values of the entry point select the wave correction, blender, feature matcher and feature
 * detector of the stitching engine. The setter calls on the engine only receive this value,
 * so it is modelled as one immutable `StitchConfig`.
 */
module Config {

  /** The parameters of the `stitch` entry point, in its order. Doubles are reals here. */
  datatype StitchArgs = StitchArgs(
    inputImagePath: string,
    outputImagePath: string,
    cropped: bool,
    confidenceThreshold: real,
    panoConfidenceThresh: real,
    waveCorrection: int,
    registrationResol: real,
    matcherType: int,
    featureDetectionMethod: int,
    featureMatcherImageRange: int,
    blenderType: int)

  datatype WaveCorrection = NoWaveCorrection | WaveHorizontal | WaveVertical
  datatype Blender = FeatherBlender(sharpness: real) | MultiBandBlender
  datatype Matcher = BestOf2Nearest | AffineBestOf2Nearest | BestOf2NearestRange(rangeWidth: int)
  datatype Detector = Sift | Akaze | Orb

  datatype StitchConfig = StitchConfig(
    wave: WaveCorrection,
    registrationResol: real,
    blender: Blender,
    matcher: Matcher,
    matchConf: real,
    panoConfThresh: real,
    detector: Detector)

  /** `switch (waveCorrection)`: 0 turns wave correction off, 1 horizontal, 2 vertical,
    * and every other code falls back to horizontal. */
  function WaveCorrectionFor(code: int): WaveCorrection
  {
    match code
    case 0 => NoWaveCorrection
    case 2 => WaveVertical
    case _ => WaveHorizontal
  }

  /** `switch (blenderType)`: 0 a feather blender of sharpness 0, 1 one of sharpness 0.05,
    * 2 and every other code the multi-band blender. */
  function BlenderFor(code: int): Blender
  {
    match code
    case 0 => FeatherBlender(0.0)
    case 1 => FeatherBlender(0.05)
    case _ => MultiBandBlender
  }

  /** `switch (featureDetectionMethod)`: 0 SIFT, 1 AKAZE, 2 and every other code ORB. */
  function DetectorFor(code: int): Detector
  {
    match code
    case 0 => Sift
    case 1 => Akaze
    case _ => Orb
  }

  /** The feature matcher: the range matcher whenever more than two images are stitched and
    * a positive range is given, whatever the matcher type; otherwise affine for type 1 and
    * homography-based for every other type. */
  function MatcherFor(imageCount: nat, matcherType: int, range: int): (m: Matcher)
    ensures m.BestOf2NearestRange? <==> imageCount > 2 && range > 0
    ensures m.BestOf2NearestRange? ==> m.rangeWidth == range
    ensures m == AffineBestOf2Nearest <==> !(imageCount > 2 && range > 0) && matcherType == 1
  {
    if imageCount > 2 && range > 0 then BestOf2NearestRange(range)
    else if matcherType == 1 then AffineBestOf2Nearest
    else BestOf2Nearest
  }

  /** `match_conf`: the given confidence when positive, else 0.3. */
  function MatchConfidence(c: real): (r: real)
    ensures r > 0.0
    ensures c > 0.0 ==> r == c
    ensures c <= 0.0 ==> r == 0.3
  {
    if c > 0.0 then c else 0.3
  }

  /** `conf_thresh`: the given threshold when non-negative, else 1.0. */
  function PanoConfidence(p: real): (r: real)
    ensures r >= 0.0
    ensures p >= 0.0 ==> r == p
    ensures p < 0.0 ==> r == 1.0
  {
    if p >= 0.0 then p else 1.0
  }

  /** The configuration handed to the engine for `imageCount` loaded images. */
  function Configure(a: StitchArgs, imageCount: nat): (cfg: StitchConfig)
    ensures cfg.registrationResol == a.registrationResol
    ensures cfg.matchConf > 0.0 && cfg.panoConfThresh >= 0.0
  {
    StitchConfig(
      WaveCorrectionFor(a.waveCorrection),
      a.registrationResol,
      BlenderFor(a.blenderType),
      MatcherFor(imageCount, a.matcherType, a.featureMatcherImageRange),
      MatchConfidence(a.confidenceThreshold),
      PanoConfidence(a.panoConfidenceThresh),
      DetectorFor(a.featureDetectionMethod))
  }

  // Partners: the documented codes of the command-line usage text, and the fallbacks.

  /** The code the usage text documents for each wave-correction mode. */
  function WaveCode(w: WaveCorrection): int
  {
    match w
    case NoWaveCorrection => 0
    case WaveHorizontal => 1
    case WaveVertical => 2
  }

  function DetectorCode(d: Detector): int
  {
    match d
    case Sift => 0
    case Akaze => 1
    case Orb => 2
  }

  /** Every wave-correction mode and every detector is selected by its documented code,
    * the blender codes 0, 1 and 2 select feather blending of sharpness 0 and 0.05 and
    * multi-band blending, and every undocumented code selects what the default code selects
    * (1 for waves, 2 for detectors and blenders). */
  lemma CodesSelectChoices()
    ensures forall w :: WaveCorrectionFor(WaveCode(w)) == w
    ensures forall d :: DetectorFor(DetectorCode(d)) == d
    ensures forall code :: !(0 <= code <= 2) ==> WaveCorrectionFor(code) == WaveCorrectionFor(1)
    ensures forall code :: !(0 <= code <= 2) ==> DetectorFor(code) == DetectorFor(2)
    ensures forall code :: !(0 <= code <= 2) ==> BlenderFor(code) == BlenderFor(2)
    ensures BlenderFor(0) == FeatherBlender(0.0) && BlenderFor(1) == FeatherBlender(0.05) && BlenderFor(2) == MultiBandBlender
  {
  }

  /** The matcher type has no effect once the range matcher applies. */
  lemma RangeOverridesMatcherType(imageCount: nat, type1: int, type2: int, range: int)
    requires imageCount > 2 && range > 0
    ensures MatcherFor(imageCount, type1, range) == MatcherFor(imageCount, type2, range)
  {
  }

  /** The configuration depends on the images only through whether there are more than two. */
  lemma ConfigureDependsOnlyOnManyImages(a: StitchArgs, n1: nat, n2: nat)
    requires (n1 > 2) == (n2 > 2)
    ensures Configure(a, n1) == Configure(a, n2)
  {
  }

  lemma ExampleConfigurations()
    ensures WaveCorrectionFor(5) == WaveHorizontal
    ensures BlenderFor(-1) == MultiBandBlender
    ensures MatcherFor(5, 1, 3) == BestOf2NearestRange(3)
    ensures MatchConfidence(0.0) == 0.3
    ensures PanoConfidence(-1.0) == 1.0
  {
  }
}
