# Panorama stitcher core, modelled in Dafny

This project models the native panorama stitcher of the camera plugin. It covers two files.
`src/umbrella/Stitcher/Stitcher.cpp` holds the `stitch` entry point and its helpers.
`src/umbrella/Stitcher/main.cpp` is the command-line front end that parses options and calls `stitch`.

- `stitch` takes its input paths as one bracketed string such as `"[a.jpg, b.jpg,c.jpg]"`.
  `getpathlist` splits it into words. Commas and white space are separators, and runs of them collapse.
- `convert_to_matlist` loads every image and swaps it from BGR to RGB.
  If any image fails to decode, it returns nothing at all.
- The option codes choose the engine's wave correction, blender, feature matcher and feature detector.
- The engine's composite is converted back to BGR. If cropping was asked for, `cropWithMat` then shrinks a
  region of interest until none of its four border lines is "black" (zero pixels amounting to at least 5% of the
  image width or height).
- The result goes to `imwrite`.

Modules, one file each:

| module | file | what it is |
|---|---|---|
| `Basics` | `basics.dfy` | `Option` |
| `Images` | `images.dfy` | pixels, rectangular images (`Raster`), `Rect`, the ROI copy, the channel swap, the gray conversion |
| `Crop` | `crop.dfy` | `checkBlackRow`, `checkBlackColumn` and `cropWithMat` as methods; `CropFrom` / `AutoCrop` specify the search |
| `PathList` | `pathlist.dfy` | `getpathlist` and the `tokens` white-space facet |
| `Config` | `config.dfy` | the mapping from option codes and confidences to a `StitchConfig` |
| `Dispatch` | `dispatch.dfy` | `convert_to_matlist` as a method, and `stitch` as a function of its collaborators |
| `Decimal` | `decimal.dfy` | `std::to_string(int)` and `std::stoi` |
| `Cli` | `cli.dfy` | `getOptionValue`, `getBoolOption`, `getIntOption`, `getDoubleOption`, and `main` as `Run` |

The state-changing parts of the source are loops over local variables: the scans, the region search, the image
loader and the option scan. Each becomes a `method` with loop invariants, and its `ensures` equates it with a
specification function. `stitch` is a straight-line dispatch, so it is a function.

Foreign library calls are parameters collected in `Dispatch.Env`:
- `imread`: a decode failure is the empty image;
- the stitching engine: it returns a status and a composite, or it throws;
- the per-pixel gray weighting of `cvtColor`;
- `imwrite`: it returns a flag, or it throws.

`std::stod` is a parameter of the command-line model.

Exceptions follow the source:
- A `cv::Exception` raised inside the `try` block of `stitch` makes it return false. This covers the engine, the
  conversion of an empty composite, and `imwrite`.
- `std::out_of_range` from `getpathlist("")` is not caught. It becomes the outcome `Aborted`.
- A parse exception in `main` is not caught. It becomes the exit status `Terminated`.

Two quirks of `cropWithMat` are kept exactly as written:
- A row is scanned over the columns `[x, width)`, and a column over the rows `[y, height)`. The scan does not
  run to `x + width` or `y + height`.
- The zero count is divided by the full image width (for a row) or height (for a column), not by the length
  of the scanned segment.

As a result, an all-black 30×30 composite is not rejected. It is cropped to the 10×10 region at (10, 10)
(`Crop.AllBlack30Accepted`). A thin black frame around a picture without black pixels is cut away exactly
(`Crop.ThinFrameCroppedToInterior`). A thick frame makes the shortened scans run out, or fall below 5% of the image dimension, before they
reach the picture, and the crop settles on a region whose boundary is still black (`Crop.ThickFrameNotRemoved`).

## Model

| member | source | states |
|---|---|---|
| Images.Restrict | src/umbrella/Stitcher/Stitcher.cpp:73-74 | the copied region of interest has the rectangle's size, and each of its pixels is the source pixel at the offset position |
| Images.SwapRB | src/umbrella/Stitcher/Stitcher.cpp:152 | the BGR-to-RGB conversion keeps the size and swaps the first and third channels of every pixel |
| Images.SwapRBInvolution | src/umbrella/Stitcher/Stitcher.cpp:308 | converting RGB back to BGR restores the loaded channel order exactly |
| Images.ToGray | src/umbrella/Stitcher/Stitcher.cpp:58 | the gray image has the source's size and is the weighting applied pixel by pixel |
| Crop.RowZeros | src/umbrella/Stitcher/Stitcher.cpp:23-30 | the zero count of a row scan never exceeds the length of the scanned range |
| Crop.ColZeros | src/umbrella/Stitcher/Stitcher.cpp:40-47 | the zero count of a column scan never exceeds the length of the scanned range |
| Crop.NotBlackMeaning | src/umbrella/Stitcher/Stitcher.cpp:31 | a line passes exactly when its zeros are strictly fewer than 5% of the image dimension, so exactly 5% is black; a zero dimension passes only without zeros; fewer zeros never make a passing line black |
| Crop.CheckBlackRow | src/umbrella/Stitcher/Stitcher.cpp:21-36 | the loop returns true exactly when the zeros of row `y` over columns `[rect.x, rect.width)`, divided by the image width, are below 5% (exactly 5% is black) |
| Crop.CheckBlackColumn | src/umbrella/Stitcher/Stitcher.cpp:38-53 | the same for column `x` over rows `[rect.y, rect.height)`, divided by the image height, are below 5% |
| Crop.TestEdges | src/umbrella/Stitcher/Stitcher.cpp:64-67 | the four tests examine the top row, left column, bottom row and right column of the current region |
| Crop.Shrink | src/umbrella/Stitcher/Stitcher.cpp:77-97 | each failing edge moves inward by exactly one; the region is unchanged if and only if all four edges pass, and otherwise width + height strictly decreases |
| Crop.ShrinkRoi | src/umbrella/Stitcher/Stitcher.cpp:79-97 | the four sequential field updates compute that shrink |
| Crop.CropFrom | src/umbrella/Stitcher/Stitcher.cpp:62-103 | a region found from `r` lies inside the image and inside `r`, and all four of its edges pass |
| Crop.SearchRegion | src/umbrella/Stitcher/Stitcher.cpp:60-103 | the `while (1)` loop from the full frame terminates with the specified region, or with none when the region collapses |
| Crop.AutoCrop | src/umbrella/Stitcher/Stitcher.cpp:60-103 | the search from `Rect(0, 0, cols, rows)` finds, if anything, a region inside the image none of whose four edges is black |
| Crop.CropResult | src/umbrella/Stitcher/Stitcher.cpp:55-104 | cropping succeeds exactly when the search finds a region, and the cropped image is never larger than its source |
| Crop.CropWithMat | src/umbrella/Stitcher/Stitcher.cpp:55-104 | returns true exactly when a region is found, and then `dest` is that region's copy of `src` |
| Crop.CleanImageKeepsFullFrame | src/umbrella/Stitcher/Stitcher.cpp:60-76 | a composite without a zero gray pixel is accepted at once as the whole frame |
| Crop.AllBlack30Accepted | src/umbrella/Stitcher/Stitcher.cpp:24 | because the scan stops at the width rather than at x + width, an all-black 30×30 image is accepted at Rect(10, 10, 10, 10) instead of collapsing |
| Crop.EmptyScanPasses | src/umbrella/Stitcher/Stitcher.cpp:24-35 | once the offset reaches the width and height, the scans are empty and every edge passes, whatever the pixels |
| Crop.RingStep | src/umbrella/Stitcher/Stitcher.cpp:64-97 | when the four scanned lines of a centred square region are zero and long enough to be black, all four edges move inward by one |
| Crop.RingsShrink | src/umbrella/Stitcher/Stitcher.cpp:62-103 | a run of such passes leads the loop from one centred square region to a smaller one with the same outcome |
| Crop.InteriorAccepted | src/umbrella/Stitcher/Stitcher.cpp:64-76 | the region just inside a black frame scans no zero and is accepted |
| Crop.ThinFrameCroppedToInterior | src/umbrella/Stitcher/Stitcher.cpp:55-104 | when the zero pixels of an n×n image are exactly a frame t wide, with 2t < n and 60(t − 1) ≤ 19n, the crop is exactly the interior `Rect(t, t, n − 2t, n − 2t)` |
| Crop.ScansRunOut | src/umbrella/Stitcher/Stitcher.cpp:24 | when m passes make the scan ranges empty (n ≤ 3m) before the frame ends, the crop settles on the m-th region, and if the frame is wider than m that region's boundary lines are all black |
| Crop.ThickFrameNotRemoved | src/umbrella/Stitcher/Stitcher.cpp:24 | a 12×12 image with a 5-pixel frame is cropped to `Rect(4, 4, 4, 4)`, whose four boundary lines are black |
| PathList.FacetSeparators | src/umbrella/Stitcher/Stitcher.cpp:116-120 | ',' and ' ' separate words, so does every classic white-space character, and letters, digits and the usual path characters (brackets included) do not |
| PathList.Tokens | src/umbrella/Stitcher/Stitcher.cpp:127-131 | every word read is non-empty and contains no separator |
| PathList.Inner | src/umbrella/Stitcher/Stitcher.cpp:126 | `substr(1, length - 2)` drops exactly the first and the last character; a one-character string leaves nothing |
| PathList.GetPathList | src/umbrella/Stitcher/Stitcher.cpp:124-133 | throws exactly on the empty string; otherwise gives words only |
| PathList.TokensKeepContent | src/umbrella/Stitcher/Stitcher.cpp:119-131 | the words, concatenated, are exactly the non-separator characters of the input in order |
| PathList.TokensOfJoin | src/umbrella/Stitcher/Stitcher.cpp:127-131 | paths written with a non-empty run of commas and white space in every gap, each gap chosen independently, read back as the same paths |
| PathList.PathListRoundTrip | src/umbrella/Stitcher/Stitcher.cpp:124-133 | a bracketed list of paths, with any non-empty run of separators in each gap and any bracket characters, parses back into exactly those paths, and an empty list into none |
| PathList.ThreePaths | src/umbrella/Stitcher/Stitcher.cpp:119-120 | `"[a, b,c]"`, with inconsistent spacing, gives exactly `[a, b, c]` |
| PathList.ExampleThreePaths | src/umbrella/Stitcher/Stitcher.cpp:124-133 | `"[a.jpg, b.jpg,c.jpg]"` gives exactly `a.jpg`, `b.jpg` and `c.jpg` |
| PathList.ExampleEmptyList | src/umbrella/Stitcher/Stitcher.cpp:126 | `"[]"` gives the empty list, and `""` throws |
| Config.MatcherFor | src/umbrella/Stitcher/Stitcher.cpp:242-260 | the range matcher is chosen if and only if there are more than two images and the range is positive, and it gets that range; otherwise affine if and only if the type is 1 |
| Config.MatchConfidence | src/umbrella/Stitcher/Stitcher.cpp:240 | the match confidence is always positive: the given value when that is positive, and 0.3 for every other value |
| Config.PanoConfidence | src/umbrella/Stitcher/Stitcher.cpp:265 | the panorama threshold is never negative: the given value when that is non-negative, and 1.0 for every negative value |
| Config.Configure | src/umbrella/Stitcher/Stitcher.cpp:193-291 | the registration resolution passes through unchanged, and both confidences handed to the engine are valid |
| Config.CodesSelectChoices | src/umbrella/Stitcher/Stitcher.cpp:193-291 | each documented code selects its own wave correction and detector; blender codes 0, 1 and 2 select feather blending of sharpness 0 and 0.05 and multi-band blending; every other code selects the default (horizontal, ORB, multi-band) |
| Config.RangeOverridesMatcherType | src/umbrella/Stitcher/Stitcher.cpp:242-254 | with more than two images and a positive range, the matcher type has no effect |
| Config.ConfigureDependsOnlyOnManyImages | src/umbrella/Stitcher/Stitcher.cpp:242 | the configuration depends on the loaded images only through whether there are more than two |
| Config.ExampleConfigurations | src/umbrella/Stitcher/Stitcher.cpp:208-265 | out-of-range codes and invalid confidences fall back to the documented defaults |
| Dispatch.LoadAll | src/umbrella/Stitcher/Stitcher.cpp:160-165 | the loaded list is either empty or exactly as long as the path list |
| Dispatch.ConvertToMatList | src/umbrella/Stitcher/Stitcher.cpp:135-166 | the result is non-empty if and only if the list is non-empty and every path decodes, and then it holds each image in path order, channel-swapped |
| Dispatch.WriteOut | src/umbrella/Stitcher/Stitcher.cpp:316-331 | the result of `imwrite` is ignored: the call succeeds unless it throws |
| Dispatch.Stitch | src/umbrella/Stitcher/Stitcher.cpp:168-339 | `stitch` escapes with an exception exactly when the path string is empty, and it never returns true without handing an image to `imwrite` |
| Dispatch.StitchOutcomes | src/umbrella/Stitcher/Stitcher.cpp:175-332 | each early failure (missing image, empty list, engine error or exception, no crop region) returns false and writes nothing; otherwise the final image is written |
| Dispatch.StitchSucceedsIff | src/umbrella/Stitcher/Stitcher.cpp:297-338 | `stitch` returns true exactly when the engine composes, the crop (if asked for) finds a region, and `imwrite` does not throw |
| Dispatch.WrittenImageBounds | src/umbrella/Stitcher/Stitcher.cpp:310-331 | the written image is never larger than the composite; without cropping it is the whole composite |
| Dispatch.MissingImageFails | src/umbrella/Stitcher/Stitcher.cpp:144-185 | one path that does not decode makes `stitch` return false, whatever the engine would do |
| Decimal.NatToString | src/umbrella/Stitcher/main.cpp:42 | `std::to_string` of a non-negative number is a non-empty string of digits |
| Decimal.IntToString | src/umbrella/Stitcher/main.cpp:42 | `std::to_string` writes a minus sign exactly for negative values, followed by decimal digits |
| Decimal.Stoi | src/umbrella/Stitcher/main.cpp:43 | `std::stoi` yields only values in the 32-bit `int` range |
| Decimal.StoiOfIntToString | src/umbrella/Stitcher/main.cpp:42-43 | reading back what `std::to_string` wrote gives the same `int` |
| Cli.GetOptionValue | src/umbrella/Stitcher/main.cpp:21-32 | the loop from `argv[3]` returns the specified option text |
| Cli.OptionValueAbsent | src/umbrella/Stitcher/main.cpp:23-31 | with no argument `--name=...` from index 3 on, the option is its default text |
| Cli.OptionValueFirstMatch | src/umbrella/Stitcher/main.cpp:23-29 | the first argument from index 3 on that starts with `--name=` decides the option: its text after `=` |
| Cli.PositionalArgumentsAreNotOptions | src/umbrella/Stitcher/main.cpp:23 | the program name and the two positional arguments never affect an option |
| Cli.GetBoolOption | src/umbrella/Stitcher/main.cpp:34-38 | the boolean option is the specified one |
| Cli.BoolOptionMeaning | src/umbrella/Stitcher/main.cpp:34-38 | an absent flag gives the default; a flag is true only for the text `true` or `1` |
| Cli.GetIntOption | src/umbrella/Stitcher/main.cpp:40-44 | the integer option is `stoi` of the option text, whose default is the decimal rendering of the default |
| Cli.IntOptionAbsent | src/umbrella/Stitcher/main.cpp:40-44 | an absent integer option gives back the default value |
| Cli.GetDoubleOption | src/umbrella/Stitcher/main.cpp:46-50 | the floating-point option is `stod` of the option text |
| Cli.Arguments | src/umbrella/Stitcher/main.cpp:60-72 | `stitch` gets `argv[1]` and `argv[2]` as its paths, and each of its nine option parameters from its own option with its own default; parsing throws exactly when one of the eight numeric options fails to parse |
| Cli.MainStatus | src/umbrella/Stitcher/main.cpp:101-110 | `main` exits only with code 0 or 1, unless an exception escapes |
| Cli.Run | src/umbrella/Stitcher/main.cpp:52-111 | the usage check, the option parsing in order and the call to `stitch` give the specified exit status |
| Cli.MainStatusMeaning | src/umbrella/Stitcher/main.cpp:54-110 | fewer than three arguments exit with 1; exit code 0 means exactly that `stitch` was reached and returned true; the process is terminated exactly when an option fails to parse or the path-list argument is empty |
| Cli.DefaultArguments | src/umbrella/Stitcher/main.cpp:63-72 | without flags, `stitch` gets the two positional paths, cropping on, wave correction 1, matcher type 0, detector 2, matcher range 1, blender 2 and the default confidences |

## Left out

- The OpenCV engine is a parameter: feature finding, matching, the wave correction itself, blending and the engine's internal parallelism. The model keeps only the configuration handed to it and the outcome it reports.
- `imread`, `imwrite` and the gray weighting of `cvtColor` are parameters. No file is read or written, and no image format is modelled.
- The `printf` and `std::cout` logging, and the usage text of `printUsage`, are left out: they only write to the console.
- Floating point is modelled with reals. `static_cast<float>` of the confidences is not modelled, and neither is the float rounding in `(zeroCount / (float)dim) > 0.05`. `Crop.NotBlack` matches that rounding exactly for dimensions below 2^24.
- `std::stod` is a parameter (`stod: string -> Option<real>`). Its default texts are the `std::to_string` renderings `0.300000`, `1.000000` and `0.600000`.
- `std::stoi` reads leading white space, an optional sign and decimal digits, and then checks the `int` range. It does not model the `long` intermediate of `strtol`.
- `convert_to_matlist` is always called with `isvertical == false`, so the 90° rotation is left out. The unused `scale` is left out too.
- The `tokens` facet is modelled by its effect: which characters separate words. The copy of the classic ctype table and the locale construction are not modelled.
- `Crop.CropWithMat` delegates to `Crop.SearchRegion`, `Crop.TestEdges` and `Crop.ShrinkRoi`. Together these are the body of the one C++ function, split up so that each proof stays small.
- `Config.WaveCorrectionFor`, `Config.BlenderFor` and `Config.DetectorFor` carry no contract of their own. Their meaning is stated by `Config.CodesSelectChoices`.
- `Crop.NotBlack` and `PathList.IsSeparator` carry no contract of their own. Their meaning is stated by `Crop.NotBlackMeaning` and `PathList.FacetSeparators`.
- Crop.ThinFrameCroppedToInterior: covers square images with a frame of the same width on all four sides. Rectangular images and frames of unequal widths are not covered.
- C `int` overflow of the command-line integers is not reachable: `std::stoi` rejects values outside the 32-bit range, and the model returns `None` for them.
- Strings are Dafny character sequences, while `std::string` and `argv` hold bytes. Nothing is lost by this: the path separators, the brackets and the option keys are all ASCII, and the other characters are only copied.
- The Objective-C header bridge and the Dart side of the plugin are not part of this model.
