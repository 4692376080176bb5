/**
 * The command-line front end: `argv[1]` is the bracketed input path list, `argv[2]` the
 * output path, and every later argument may set one option as `--name=value`; options that
 * are absent take their documented defaults. The exit status is 0 exactly when `stitch`
 * returned true.
 */
module Cli {
  import opened Basics
  import opened Images
  import opened Config
  import opened Dispatch
  import opened Decimal

  predicate StartsWith(s: string, prefix: string)
  {
    |prefix| <= |s| && s[..|prefix|] == prefix
  }

  /** The value of the first argument at index `i` or later that starts with `key`, or
    * `default` when there is none. */
  function ScanFrom(key: string, argv: seq<string>, i: nat, default: string): string
    decreases |argv| - i
  {
    if i >= |argv| then default
    else if StartsWith(argv[i], key) then argv[i][|key|..]
    else ScanFrom(key, argv, i + 1, default)
  }

  /** The resolved text of `option`: the scan starts at `argv[3]`. */
  function OptionValue(option: string, argv: seq<string>, default: string): string
  {
    ScanFrom(option + "=", argv, 3, default)
  }

  /** `getOptionValue(option, argc, argv, defaultValue)`. */
  method GetOptionValue(option: string, argv: seq<string>, defaultValue: string) returns (value: string)
    ensures value == OptionValue(option, argv, defaultValue)
  {
    var key := option + "=";
    var i := 3;
    while i < |argv|
      invariant 3 <= i
      invariant ScanFrom(key, argv, i, defaultValue) == OptionValue(option, argv, defaultValue)
    {
      var arg := argv[i];
      // `arg.find(key) == 0`: the key occurs at position 0.
      if StartsWith(arg, key) {
        return arg[|key|..];
      }
      i := i + 1;
    }
    return defaultValue;
  }

  /** No argument from index 3 on sets `option`. */
  predicate Absent(option: string, argv: seq<string>)
  {
    forall i :: 3 <= i < |argv| ==> !StartsWith(argv[i], option + "=")
  }

  lemma {:induction false} ScanFromAbsent(key: string, argv: seq<string>, i: nat, default: string)
    requires forall j :: i <= j < |argv| ==> !StartsWith(argv[j], key)
    ensures ScanFrom(key, argv, i, default) == default
    decreases |argv| - i
  {
    if i < |argv| {
      ScanFromAbsent(key, argv, i + 1, default);
    }
  }

  lemma {:induction false} ScanFromFirst(key: string, argv: seq<string>, i: nat, k: nat, default: string)
    requires i <= k < |argv| && StartsWith(argv[k], key)
    requires forall j :: i <= j < k ==> !StartsWith(argv[j], key)
    ensures ScanFrom(key, argv, i, default) == argv[k][|key|..]
    decreases k - i
  {
    if i < k {
      ScanFromFirst(key, argv, i + 1, k, default);
    }
  }

  /** Without a matching argument the option resolves to its default text. */
  lemma OptionValueAbsent(option: string, argv: seq<string>, default: string)
    requires Absent(option, argv)
    ensures OptionValue(option, argv, default) == default
  {
    ScanFromAbsent(option + "=", argv, 3, default);
  }

  /** The first matching argument from index 3 on decides the option: its text after '='. */
  lemma OptionValueFirstMatch(option: string, argv: seq<string>, k: nat, default: string)
    requires 3 <= k < |argv| && StartsWith(argv[k], option + "=")
    requires forall j :: 3 <= j < k ==> !StartsWith(argv[j], option + "=")
    ensures OptionValue(option, argv, default) == argv[k][|option| + 1..]
  {
    ScanFromFirst(option + "=", argv, 3, k, default);
  }

  lemma {:induction false} ScanFromSameTail(key: string, argv: seq<string>, argv': seq<string>, i: nat, default: string)
    requires |argv| == |argv'|
    requires forall j :: i <= j < |argv| ==> argv[j] == argv'[j]
    ensures ScanFrom(key, argv, i, default) == ScanFrom(key, argv', i, default)
    decreases |argv| - i
  {
    if i < |argv| {
      ScanFromSameTail(key, argv, argv', i + 1, default);
    }
  }

  /** The program name and the two positional arguments are never read as options. */
  lemma PositionalArgumentsAreNotOptions(option: string, argv: seq<string>, argv': seq<string>, default: string)
    requires |argv| == |argv'| && forall j :: 3 <= j < |argv| ==> argv[j] == argv'[j]
    ensures OptionValue(option, argv, default) == OptionValue(option, argv', default)
  {
    ScanFromSameTail(option + "=", argv, argv', 3, default);
  }

  /** `getBoolOption`: true exactly for the texts "true" and "1". */
  function BoolOption(option: string, argv: seq<string>, default: bool): bool
  {
    var value := OptionValue(option, argv, if default then "true" else "false");
    value == "true" || value == "1"
  }

  method GetBoolOption(option: string, argv: seq<string>, defaultValue: bool) returns (b: bool)
    ensures b == BoolOption(option, argv, defaultValue)
  {
    var value := GetOptionValue(option, argv, if defaultValue then "true" else "false");
    b := value == "true" || value == "1";
  }

  /** An absent flag gives the default; a given flag is true only for "true" or "1", so
    * "True" and "yes" are false. */
  lemma BoolOptionMeaning(option: string, argv: seq<string>, default: bool)
    ensures Absent(option, argv) ==> BoolOption(option, argv, default) == default
    ensures BoolOption(option, argv, default) ==>
      OptionValue(option, argv, if default then "true" else "false") in {"true", "1"}
  {
    if Absent(option, argv) {
      OptionValueAbsent(option, argv, if default then "true" else "false");
    }
  }

  /** `getIntOption`: `std::stoi` of the resolved text, whose default is
    * `std::to_string(defaultValue)`; `None` is the exception `stoi` throws. */
  function IntOption(option: string, argv: seq<string>, default: int): Option<int>
  {
    Stoi(OptionValue(option, argv, IntToString(default)))
  }

  method GetIntOption(option: string, argv: seq<string>, defaultValue: int) returns (n: Option<int>)
    ensures n == IntOption(option, argv, defaultValue)
  {
    var value := GetOptionValue(option, argv, IntToString(defaultValue));
    n := Stoi(value);
  }

  /** An absent flag gives back the default value through the text round trip. */
  lemma IntOptionAbsent(option: string, argv: seq<string>, default: int)
    requires Absent(option, argv) && IsInt32(default)
    ensures IntOption(option, argv, default) == Some(default)
  {
    OptionValueAbsent(option, argv, IntToString(default));
    StoiOfIntToString(default);
  }

  /** `getDoubleOption`: `std::stod` (a parameter here) of the resolved text, whose default
    * is the `std::to_string` rendering of the default value. */
  function DoubleOption(option: string, argv: seq<string>, defaultText: string, stod: string -> Option<real>): Option<real>
  {
    stod(OptionValue(option, argv, defaultText))
  }

  method GetDoubleOption(option: string, argv: seq<string>, defaultText: string, stod: string -> Option<real>)
    returns (x: Option<real>)
    ensures x == DoubleOption(option, argv, defaultText, stod)
  {
    var value := GetOptionValue(option, argv, defaultText);
    x := stod(value);
  }

  /** How the process ends: with an exit code, or by an exception nobody catches. */
  datatype ExitStatus = Exit(code: int) | Terminated

  /** The arguments `main` passes to `stitch`, or `None` when parsing an option throws. */
  function Arguments(argv: seq<string>, stod: string -> Option<real>): (r: Option<StitchArgs>)
    requires |argv| >= 3
    // the positional paths, and which option feeds which parameter of `stitch`
    ensures r.Some? ==> r.value.inputImagePath == argv[1] && r.value.outputImagePath == argv[2]
    ensures r.Some? ==> r.value.cropped == BoolOption("--cropped", argv, true)
    ensures r.Some? ==>
      Some(r.value.confidenceThreshold) == DoubleOption("--confidence", argv, "0.300000", stod)
      && Some(r.value.panoConfidenceThresh) == DoubleOption("--pano-confidence", argv, "1.000000", stod)
      && Some(r.value.registrationResol) == DoubleOption("--registration-resol", argv, "0.600000", stod)
    ensures r.Some? ==>
      Some(r.value.waveCorrection) == IntOption("--wave-correction", argv, 1)
      && Some(r.value.matcherType) == IntOption("--matcher-type", argv, 0)
      && Some(r.value.featureDetectionMethod) == IntOption("--feature-detection", argv, 2)
      && Some(r.value.featureMatcherImageRange) == IntOption("--feature-matcher-range", argv, 1)
      && Some(r.value.blenderType) == IntOption("--blender-type", argv, 2)
    // any option that fails to parse throws, whichever it is
    ensures r.None? <==>
      (IntOption("--wave-correction", argv, 1).None? || IntOption("--matcher-type", argv, 0).None?
      || IntOption("--feature-detection", argv, 2).None? || IntOption("--feature-matcher-range", argv, 1).None?
      || IntOption("--blender-type", argv, 2).None?
      || DoubleOption("--confidence", argv, "0.300000", stod).None?
      || DoubleOption("--pano-confidence", argv, "1.000000", stod).None?
      || DoubleOption("--registration-resol", argv, "0.600000", stod).None?)
  {
    var cropped := BoolOption("--cropped", argv, true);
    var confidence := DoubleOption("--confidence", argv, "0.300000", stod);
    var panoConfidence := DoubleOption("--pano-confidence", argv, "1.000000", stod);
    var wave := IntOption("--wave-correction", argv, 1);
    var resol := DoubleOption("--registration-resol", argv, "0.600000", stod);
    var matcher := IntOption("--matcher-type", argv, 0);
    var detection := IntOption("--feature-detection", argv, 2);
    var range := IntOption("--feature-matcher-range", argv, 1);
    var blender := IntOption("--blender-type", argv, 2);
    if confidence.Some? && panoConfidence.Some? && wave.Some? && resol.Some?
      && matcher.Some? && detection.Some? && range.Some? && blender.Some?
    then
      Some(StitchArgs(argv[1], argv[2], cropped, confidence.value, panoConfidence.value, wave.value,
        resol.value, matcher.value, detection.value, range.value, blender.value))
    else None
  }

  /** The exit status for an outcome of `stitch`. */
  function ExitFor(r: StitchOutcome): ExitStatus
  {
    match r
    case Aborted => Terminated
    case Returned(success, _) => Exit(if success then 0 else 1)
  }

  /** The exit status of `main` for the command line `argv`. */
  function MainStatus(argv: seq<string>, env: Env, stod: string -> Option<real>): (status: ExitStatus)
    ensures status.Exit? ==> status.code == 0 || status.code == 1
  {
    if |argv| < 3 then Exit(1)
    else
      match Arguments(argv, stod)
      case None => Terminated
      case Some(a) => ExitFor(Stitch(a, env))
  }

  /** `main(argc, argv)`. */
  method Run(argv: seq<string>, env: Env, stod: string -> Option<real>) returns (status: ExitStatus)
    ensures status == MainStatus(argv, env, stod)
  {
    if |argv| < 3 {
      return Exit(1);
    }
    var inputImagePath := argv[1];
    var outputImagePath := argv[2];

    var cropped := GetBoolOption("--cropped", argv, true);
    var confidenceThreshold := GetDoubleOption("--confidence", argv, "0.300000", stod);
    var panoConfidenceThresh := GetDoubleOption("--pano-confidence", argv, "1.000000", stod);
    var waveCorrection := GetIntOption("--wave-correction", argv, 1);
    var registrationResol := GetDoubleOption("--registration-resol", argv, "0.600000", stod);
    var matcherType := GetIntOption("--matcher-type", argv, 0);
    var featureDetectionMethod := GetIntOption("--feature-detection", argv, 2);
    var featureMatcherImageRange := GetIntOption("--feature-matcher-range", argv, 1);
    var blenderType := GetIntOption("--blender-type", argv, 2);
    if confidenceThreshold.None? || panoConfidenceThresh.None? || waveCorrection.None? || registrationResol.None?
      || matcherType.None? || featureDetectionMethod.None? || featureMatcherImageRange.None? || blenderType.None?
    {
      return Terminated;
    }

    var result := Stitch(StitchArgs(inputImagePath, outputImagePath, cropped,
      confidenceThreshold.value, panoConfidenceThresh.value, waveCorrection.value,
      registrationResol.value, matcherType.value, featureDetectionMethod.value,
      featureMatcherImageRange.value, blenderType.value), env);
    match result
    case Aborted =>
      return Terminated;
    case Returned(success, _) =>
      return if success then Exit(0) else Exit(1);
  }

  /** No argument from index 3 on is a `--` flag. */
  predicate NoFlags(argv: seq<string>)
  {
    forall i :: 3 <= i < |argv| ==> !StartsWith(argv[i], "--")
  }

  lemma NoFlagsAbsent(option: string, argv: seq<string>)
    requires NoFlags(argv) && StartsWith(option, "--")
    ensures Absent(option, argv)
  {
    forall i | 3 <= i < |argv|
      ensures !StartsWith(argv[i], option + "=")
    {
    }
  }

  /** Without flags, `stitch` gets cropping on, wave correction 1, matcher type 0,
    * detector 2, matcher range 1, blender 2 and the parsed default confidences. */
  lemma DefaultArguments(argv: seq<string>, stod: string -> Option<real>)
    requires |argv| >= 3 && NoFlags(argv)
    requires stod("0.300000").Some? && stod("1.000000").Some? && stod("0.600000").Some?
    ensures Arguments(argv, stod) == Some(StitchArgs(argv[1], argv[2], true,
      stod("0.300000").value, stod("1.000000").value, 1, stod("0.600000").value, 0, 2, 1, 2))
  {
    NoFlagsAbsent("--cropped", argv);
    NoFlagsAbsent("--confidence", argv);
    NoFlagsAbsent("--pano-confidence", argv);
    NoFlagsAbsent("--wave-correction", argv);
    NoFlagsAbsent("--registration-resol", argv);
    NoFlagsAbsent("--matcher-type", argv);
    NoFlagsAbsent("--feature-detection", argv);
    NoFlagsAbsent("--feature-matcher-range", argv);
    NoFlagsAbsent("--blender-type", argv);
    BoolOptionMeaning("--cropped", argv, true);
    OptionValueAbsent("--confidence", argv, "0.300000");
    OptionValueAbsent("--pano-confidence", argv, "1.000000");
    OptionValueAbsent("--registration-resol", argv, "0.600000");
    IntOptionAbsent("--wave-correction", argv, 1);
    IntOptionAbsent("--matcher-type", argv, 0);
    IntOptionAbsent("--feature-detection", argv, 2);
    IntOptionAbsent("--feature-matcher-range", argv, 1);
    IntOptionAbsent("--blender-type", argv, 2);
  }

  /** Exit code 0 means exactly that `stitch` was reached and returned true; an uncaught
    * exception comes from an option `stoi` or `stod` rejects, or from an empty path list. */
  lemma MainStatusMeaning(argv: seq<string>, env: Env, stod: string -> Option<real>)
    ensures |argv| < 3 ==> MainStatus(argv, env, stod) == Exit(1)
    ensures MainStatus(argv, env, stod) == Exit(0) <==>
      |argv| >= 3 && Arguments(argv, stod).Some? && Stitch(Arguments(argv, stod).value, env).Returned?
      && Stitch(Arguments(argv, stod).value, env).success
    ensures MainStatus(argv, env, stod) == Terminated <==>
      |argv| >= 3 && (Arguments(argv, stod).None? || argv[1] == [])
  {
    if |argv| >= 3 && Arguments(argv, stod).Some? {
      assert Arguments(argv, stod).value.inputImagePath == argv[1];
    }
  }
}
