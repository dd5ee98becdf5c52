# Planar camera calibration and interesting-feature scoring

This project is a Dafny model of the calibration core of a small OpenCV job server. It has two parts.

**Calibration** (`src/CvCalibrateCamera.cpp`, `src/CvCalibrateCamera.h`):
- the fixed world↔calibration axis permutation `gWorldToCalibration`;
- `GetCalibrationVectors`, which validates two parallel point arrays and packs them into the single point group the solver takes;
- `Opencv::CalibrateCamera`, which validates the image size and builds the solver's flag set, initial intrinsic matrix and distortion vector. It then calls the planar calibration solver and rethrows the solver's exceptions with their messages. Finally it stores the average error and, when extrinsics are requested, the inverted model-view matrix assembled from the solver's rotation and translation;
- the records `TCamera`, `TCalibrateCameraParams` and `TGetHomographyParams`, with their default constructors.

**Feature scoring** (`src/PopOpencv.cpp`):
- `ScoreInterestingFeatures`. It builds a histogram of feature descriptors, rescores every feature as `1 - count/maxCount`, and removes in place those scoring below a threshold;
- the sampling grid of `OnFindInterestingFeatures`, which feeds it.

Modules, one file each:

| file | module | models |
|---|---|---|
| `wrappers.dfy` | `Wrappers` | `Option` and `Result` |
| `soy_math.dfy` | `SoyMath` | vectors, matrices as `seq<seq<real>>`, transpose, product, and their 4×4 algebra |
| `calibration_types.dfy` | `CalibrationTypes` | `TCamera` and the two parameter records |
| `coordinate_remap.dfy` | `CoordinateRemap` | `gWorldToCalibration`, `WorldToCalibration` and `CalibrationToWorld` |
| `point_sets.dfy` | `PointSets` | `GetCalibrationVectors` |
| `camera_calibration.dfy` | `CameraCalibration` | `Opencv::CalibrateCamera` |
| `extrinsic_inverse.dfy` | `ExtrinsicInverse` | the closed form of the stored extrinsic matrix |
| `interesting_features.dfy` | `InterestingFeatures` | `ScoreInterestingFeatures` |
| `feature_grid.dfy` | `FeatureGrid` | the grid loop and the two scoring passes |

Conventions and abstractions:

- **Matrices.** `m[r][c]` is row `r`, column `c`, and `Mul` is the usual row-by-column product. A SoyMath `A *= B` is read as `A := A · B`. Points are multiplied as homogeneous columns `(x, y, z, 1)`. `Soy::MatrixToVector` (`src/CvCalibrateCamera.cpp:366`) is taken to copy the matrix in this same layout, so the stored `mMatrix` is the matrix itself. The permutation and the handedness flip are symmetric, so how their sixteen constructor arguments are laid out does not matter (`CoordinateRemap.RemapIsSymmetricInvolution` for the permutation, `CameraCalibration.HandednessIsSymmetric` for the flip).
- **External calls.** `cv::calibrateCamera`, `cv::Rodrigues` and SoyMath's general `Inverse()` are fields of a `CameraCalibration.Externals` value. So are the exceptions the solver can raise. Properties that depend on them say what is assumed: for example, that the rotation is orthonormal and that `inverse` really inverts. `gWorldToCalibration.Inverse()` is modelled as the transpose, and it is proved to be the only matrix that inverts the permutation from either side.
- **Feature extraction.** `TFeatureExtractor::GetFeature` is a parameter `(x, y) -> Option<K>`, where `None` means the call wrote to the error stream. Descriptors are compared by their printed form in the source; the model takes any type `K` with equality as that printed form.
- **Numbers.** Floats and doubles are `real`. The `cv::Size` float-to-int conversion is truncation, which for sizes of at least 1 is `Floor`.
- **Errors.** `CalibrateCamera` returns `Result<Camera, CalibrateError>`:
  - `ImageSizeTooSmall` is the `Soy::Assert(false, …)` size check;
  - `PointsRejected` is `GetCalibrationVectors` returning `false`;
  - `CalibrationFailed(message)` is a rethrown solver exception, with its exact message.

Where the code differs from what its fields, comments and dead code suggest, the model follows the code:
- Intrinsics are never written back. The block that derives focal size, principal point, field of view, aspect ratio and distortion is commented out. A forced aspect ratio is therefore not reported in `TCamera::mAspectRatio`, and `mZeroRadialDistortion` is read nowhere.
- The extrinsic matrix is right-multiplied by the handedness flip `diag(1, -1, -1, 1)` before inversion, as well as by the calibration-to-world swap.
- The world position and Euler rotation of the camera are computed for debugging only. They are not stored.
- The finiteness check on the solver's error is `IsValidFloat(IsValidFloat(e))`, which tests a `bool` and never fails. So a non-finite error is stored rather than rejected.

`CalibrateCamera` seeds both `fx` and `fy` with the same width/height ratio when the aspect ratio is forced. The solver keeps the ratio `fx/fy` fixed, so the ratio it sees is 1 either way. `CameraCalibration.InitialCameraMatrix` states this equality. It is not reported as a defect, because the code's comment does not make the intent clear.

## Model

| member | source | states |
|---|---|---|
| CalibrationTypes.DefaultCamera | src/CvCalibrateCamera.h:24-34 | a default camera has calibration error 0, focal length 1, k5 0, field of view (40, 40) and aspect ratio 1 |
| CalibrationTypes.DefaultCalibrateCameraParams | src/CvCalibrateCamera.h:66-84 | default calibration parameters: image size 100×100, intrinsic and extrinsic computation on, aspect ratio forced, radial distortion not zeroed |
| CalibrationTypes.DefaultGetHomographyParams | src/CvCalibrateCamera.h:88-97 | default homography parameters: image size 100×100 |
| CoordinateRemap.SwapsRows | src/CvCalibrateCamera.cpp:6-11 | left-multiplying any 4-row matrix by the remap exchanges its rows 1 and 2 and keeps rows 0 and 3 |
| CoordinateRemap.SwapsColumns | src/CvCalibrateCamera.cpp:6-11 | right-multiplying any 4-column matrix by the remap exchanges its columns 1 and 2 and keeps columns 0 and 3 |
| CoordinateRemap.RemapIsSymmetricInvolution | src/CvCalibrateCamera.cpp:6-11 | the remap equals its transpose and its inverse, and applying it twice gives the identity |
| CoordinateRemap.CalibrationToWorldIsInverse | src/CvCalibrateCamera.cpp:36-40 | the calibration-to-world matrix inverts the remap from both sides |
| CoordinateRemap.InverseIsUnique | src/CvCalibrateCamera.cpp:38 | any matrix that inverts the remap from either side is the calibration-to-world matrix, so every correct `Inverse()` gives the same result |
| CoordinateRemap.WorldToCalibration | src/CvCalibrateCamera.cpp:29-34 | the world point (x, y, z) becomes the calibration point (x, z, y) |
| CoordinateRemap.CalibrationToWorld | src/CvCalibrateCamera.cpp:36-45 | the calibration point (x, y, z) becomes the world point (x, z, y) |
| CoordinateRemap.RoundTrip | src/CvCalibrateCamera.cpp:29-45 | the two conversions undo each other in both orders |
| PointSets.ResizeToOne | src/CvCalibrateCamera.cpp:55-56 | resizing a group array to one keeps the existing first group, or creates an empty one |
| PointSets.PushPoints | src/CvCalibrateCamera.cpp:58-68 | the loop appends, in input order, every remapped world point and every pixel-scaled view point after the groups' existing contents, which are kept |
| PointSets.GetCalibrationVectors | src/CvCalibrateCamera.cpp:49-77 | it succeeds iff the arrays have equal, non-zero length. On failure the output arrays are untouched; on success each holds exactly one group: its old first group followed by the remapped or scaled points in order |
| PointSets.FreshCalibrationVectors | src/CvCalibrateCamera.cpp:49-77 | with empty output arrays, the one world group is exactly the remapped inputs and the one view group exactly the scaled inputs, element by element |
| PointSets.GroupsStayParallel | src/CvCalibrateCamera.cpp:70-74 | the asserted consistency holds: as many world groups as view groups, each pair of equal size |
| CameraCalibration.CalibrationFlags | src/CvCalibrateCamera.cpp:91-105 | the fixed aspect ratio is always set; the intrinsic guess is set exactly when intrinsics are not calculated; no other bit is set |
| CameraCalibration.InitialCameraMatrix | src/CvCalibrateCamera.cpp:120-127 | a 4×3 identity whose fx and fy are both the positive width/height ratio when the ratio is forced, and 1 otherwise. Every other entry is unchanged |
| CameraCalibration.ImageSizeOf | src/CvCalibrateCamera.cpp:136 | each axis of the pixel size is the float size truncated to a whole number, at least 1 |
| CameraCalibration.PrepareCalibration | src/CvCalibrateCamera.cpp:80-136 | fails with the size error when either axis is below 1, otherwise with the point error when the points are rejected. Otherwise it succeeds with the flag set, initial matrix, 5×1 zero distortion, truncated size and single remapped or scaled point groups |
| CameraCalibration.RtMatrix | src/CvCalibrateCamera.cpp:324-331 | the rotation in the top-left 3×3 block, the translation in column 3, and (0, 0, 0, 1) as the last row |
| CameraCalibration.FlipNegatesColumns | src/CvCalibrateCamera.cpp:344-350 | right-multiplying by the handedness matrix negates columns 1 and 2 and keeps columns 0 and 3 |
| CameraCalibration.HandednessIsSymmetric | src/CvCalibrateCamera.cpp:344-349 | the handedness flip equals its own transpose, so its row-major and column-major readings agree |
| CameraCalibration.ComposedModelViewLayout | src/CvCalibrateCamera.cpp:333-350 | the model view before inversion is the transposed Rt with its Y and Z columns exchanged and negated |
| CameraCalibration.CalibrateCamera | src/CvCalibrateCamera.cpp:80-373 | the size and point failures come before any solve. Each kind of solver exception fails with its exact message. A solve stores the average error and, only when extrinsics are requested, the inverted model view; every other camera field is unchanged |
| CameraCalibration.DefaultParamsRequest | src/CvCalibrateCamera.cpp:91-136 | with default parameters any accepted point set reaches the solver with only the fixed aspect ratio flag, a 100×100 size and the plain 4×3 identity as initial matrix |
| ExtrinsicInverse.RotateBackUndone | src/CvCalibrateCamera.cpp:352-355 | when the rows of R are orthonormal, rotating Rᵀt forward by R gives t back |
| ExtrinsicInverse.ClosedFormIsLeftInverse | src/CvCalibrateCamera.cpp:352-355 | when the rows of R are orthonormal, the closed-form camera-to-object matrix times the composed model view is the identity |
| ExtrinsicInverse.ClosedFormIsRightInverse | src/CvCalibrateCamera.cpp:352-355 | when the columns of R are orthonormal, the composed model view times the closed-form camera-to-object matrix is the identity |
| ExtrinsicInverse.StoredExtrinsicIsCameraToObject | src/CvCalibrateCamera.cpp:310-373 | for an orthonormal rotation and an inverse that really inverts, the stored matrix is the camera pose: the rotation columns remapped and flipped, and the camera centre -Rᵀt in the last row |
| InterestingFeatures.Keys | src/PopOpencv.cpp:136-139 | the descriptors of the features, one per feature and in order |
| InterestingFeatures.MaxCountIsMaximum | src/PopOpencv.cpp:131-142 | the running maximum equals the largest descriptor count: every descriptor occurs between 1 and that many times, some descriptor reaches it, and it is 0 exactly for an empty list |
| InterestingFeatures.Rescored | src/PopOpencv.cpp:145-152 | every feature keeps its position, coordinates and descriptor, and only its score is rewritten |
| InterestingFeatures.CountDescriptors | src/PopOpencv.cpp:131-142 | the histogram map holds every descriptor's count, absent meaning 0, and the maximum is the running maximum |
| InterestingFeatures.ScoreInterestingFeatures | src/PopOpencv.cpp:129-160 | the in-place backward rescoring and removal leaves exactly the rescored features with score at least the threshold, in order, and leaves an empty list empty |
| InterestingFeatures.CullBackwards | src/PopOpencv.cpp:144-159 | the backward walk that rewrites each score from the map and erases the feature in place when it is below the threshold leaves exactly the given rescored list culled by the threshold, in order |
| InterestingFeatures.ScoreBounds | src/PopOpencv.cpp:151-152 | every score lies between 0 and 1 - 1/maxCount |
| InterestingFeatures.MostCommonScoresZero | src/PopOpencv.cpp:151-152 | a feature whose descriptor reaches the maximal count scores 0 |
| InterestingFeatures.EqualKeysEqualScores | src/PopOpencv.cpp:147-152 | features with the same descriptor get the same score |
| InterestingFeatures.CullIsSubsequence | src/PopOpencv.cpp:144-159 | removal keeps the survivors in their original relative order |
| InterestingFeatures.CullMembership | src/PopOpencv.cpp:154-158 | a feature survives iff it was in the list and its score is at least the threshold |
| InterestingFeatures.CullKeepsAll | src/PopOpencv.cpp:154-158 | when every score meets the threshold nothing is removed |
| InterestingFeatures.NonPositiveThresholdKeepsAll | src/PopOpencv.cpp:129-160 | with a threshold of 0 or below only the scores change |
| InterestingFeatures.RescoredIsIdempotent | src/PopOpencv.cpp:129-160 | rescoring an already rescored list changes nothing, because scores are computed from the descriptors alone |
| InterestingFeatures.ScoringIsIdempotent | src/PopOpencv.cpp:129-160 | with a threshold of 0 or below, scoring twice is the same as scoring once |
| InterestingFeatures.CullKeepsWholeGroups | src/PopOpencv.cpp:151-158 | when all features of a descriptor share a score, culling keeps all of them or none |
| InterestingFeatures.ScoringKeepsWholeGroups | src/PopOpencv.cpp:129-160 | after scoring, a descriptor keeps all of its occurrences when its score meets the threshold, and none otherwise |
| InterestingFeatures.MostCommonIsRemoved | src/PopOpencv.cpp:129-160 | with a positive threshold the most common descriptor disappears completely |
| InterestingFeatures.NormalisingPass | src/PopOpencv.cpp:213-214 | scoring with threshold 0 keeps every feature and leaves every score in [0, 1] |
| FeatureGrid.RowFrom | src/PopOpencv.cpp:195 | every point of a row has the row's y and an x inside [start, width) |
| FeatureGrid.GridFrom | src/PopOpencv.cpp:193-195 | every grid point lies inside the image, from the starting row on |
| FeatureGrid.TakeExtracted | src/PopOpencv.cpp:197-206 | extraction never yields more matches than points |
| FeatureGrid.TakeExtractedIsPrefix | src/PopOpencv.cpp:193-208 | the matches are the grid points in order, each with its extracted feature, no source coordinate and score 0, up to the first point extraction refuses |
| FeatureGrid.SampleRow | src/PopOpencv.cpp:195-207 | one row of the loop appends the row's matches until the first refusal, and appends nothing once the shared error is set |
| FeatureGrid.SampleGrid | src/PopOpencv.cpp:192-208 | the nested loops produce exactly the row-major prefix of the grid before the first refusal, even though only the inner loop breaks |
| FeatureGrid.GridMembership | src/PopOpencv.cpp:193-195 | a point is on the grid iff it lies inside the image and is a whole number of steps from the origin on both axes |
| FeatureGrid.GridFromIsRowMajor | src/PopOpencv.cpp:193-195 | the grid is visited strictly in row-major order |
| FeatureGrid.SampleAndScore | src/PopOpencv.cpp:189-214 | sampling followed by the culling pass and the normalising pass |
| FeatureGrid.SecondPassOnlyRescores | src/PopOpencv.cpp:210-214 | the normalising pass removes nothing and only rescales the survivors' scores into [0, 1]; the survivors keep their sampling order |

## Left out

- `Opencv::GetHomography`: only declared in the header; its body is not part of this model.
- `TCamera::ScreenToWorldRay`, `ScreenToWorld` and `ScreenToWorldY`: declared in the header; their bodies are not part of this model.
- The job handlers' decoding of points and images, reply encoding, channels and JSON/binary output: I/O.
- The reprojection check block of `CalibrateCamera` (`src/CvCalibrateCamera.cpp:247-306`) computes a reprojection difference per point and discards it: the debug line prints only a label and the index. It changes no output, so it is left out.
- The commented-out intrinsic block (`src/CvCalibrateCamera.cpp:172-243`) is not code. The solver's distortion coefficients are read only there. Its refined intrinsic matrix is also read by the reprojection block (line 277), whose result is discarded. So `SolveOutcome` carries neither.
- Exceptions from `cv::Rodrigues`: it is called at lines 256 and 321, outside the `try` at lines 143-168. An exception there would escape without the "Calibration exception: " prefix and after `mCalibrationError` was written. The model's `rodrigues` is a total function, so these escapes are not modelled.
- The debug locals `tran3` and `rot3` (degrees from radians) are never stored, so they are left out.
- The finiteness assertion on the solver's error never fails (it tests a `bool`), so it has no error path. NaN and infinity are not modelled, because values are `real`.
- `CameraCalibration.ImageSizeOf`: `cv::Size(float, float)` converts each axis to a 32-bit `int`. A size of 2^31 or more is undefined behaviour there, but the model truncates into an unbounded `int` and gives it a value.
- Float and double rounding: all arithmetic is exact on `real`. In particular the `double`-to-`float` narrowing of the average error and the `float` division in the scores are exact.
- `Soy::Assert` versus `return false`: the size check raises an assertion and the point check returns `false`. Both are error values of `CalibrateCamera`, with different constructors, and the model does not distinguish a thrown error from a returned one.
- `CameraCalibration.CalibrateCamera`: assumes the solver accepts the 4×3 initial matrix and returns exactly one rotation and one translation for the single point group. The model does not state what the solver does with its inputs.
- `CalibrationTypes.DefaultCamera`: the constructor leaves the matrices and vectors to their own types' defaults, which are not part of this model. The model fixes them to the identity and the zero vector, and its contract states only the five fields the constructor sets.
- `ExtrinsicInverse.StoredExtrinsicIsCameraToObject`: holds only when `cv::Rodrigues` returns an orthonormal matrix and the general `Inverse()` really inverts. Both are stated as preconditions, not proved.
- `FeatureGrid.SampleGrid`: requires positive grid steps, which the source never validates. A step of 0 divides by zero when the buffer is reserved (line 191), before either loop runs. A negative row step never ends the outer loop on an image with positive height, because the outer loop has no break. A negative column step runs the inner loop for as long as extraction keeps accepting the points to the left. The first refusal breaks it, and the sticky error stream then ends every later row at its first point. With a non-positive dimension the matching loop does not run.
- The buffer reservation before the grid loop only sizes storage, so it is left out.
- `TFeatureBinRingParams` is reduced to its steps and threshold, because its other fields only configure `GetFeature`, which is a parameter here.
