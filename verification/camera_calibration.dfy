/** `Opencv::CalibrateCamera`: validation, the solver's flag set and seed
    matrices, the call into the planar calibration solver, and the
    assembly of the extrinsic matrix the camera model keeps.

    The solver (`cv::calibrateCamera`), the axis-angle expansion
    (`cv::Rodrigues`) and SoyMath's general 4×4 `Inverse()` are outside
    this model; they are passed in as the functions of an `Externals`
    value. `A *= B` on SoyMath matrices is read as `A := A · B`. */
module CameraCalibration {
  import opened Wrappers
  import opened SoyMath
  import opened CalibrationTypes
  import opened CoordinateRemap
  import opened PointSets

  /** OpenCV's calibration flag bits. */
  const UseIntrinsicGuess: bv32 := 1   // CV_CALIB_USE_INTRINSIC_GUESS
  const FixAspectRatio: bv32 := 2      // CV_CALIB_FIX_ASPECT_RATIO

  const CalibrationExceptionPrefix := "Calibration exception: "
  const UnknownExceptionMessage := "unknown exception during calibrate camera"

  /** `cv::Size`: whole pixels. */
  datatype ImageSize = ImageSize(width: int, height: int)

  /** Everything handed to the solver. The rotation and translation
      vectors it fills are part of its outcome instead. */
  datatype CalibrationRequest = CalibrationRequest(
    objectPoints: seq<seq<Vec3>>,
    imagePoints: seq<seq<Vec2>>,
    imageSize: ImageSize,
    cameraMatrix: Matrix,
    distortionCoeffs: Matrix,
    flags: bv32)

  /** What the solver can throw: an OpenCV error, another standard
      exception, or anything else. */
  datatype SolverException =
    | CvException(what: string)
    | StdException(what: string)
    | UnknownException

  /** The solver's result for the one point group it is given: the average
      reprojection error and that group's rotation and translation vectors. */
  datatype SolveOutcome =
    | Solved(averageError: real, rotation: Vec3, translation: Vec3)
    | Raised(exception: SolverException)

  datatype Externals = Externals(
    calibrateCamera: CalibrationRequest -> SolveOutcome,
    rodrigues: Vec3 -> Mat3,
    inverse: Mat4 -> Mat4)

  datatype CalibrateError =
    | ImageSizeTooSmall                  // "Camera image size too small"
    | PointsRejected                     // GetCalibrationVectors returned false
    | CalibrationFailed(message: string) // rethrown solver exception

  /** The size check: neither axis below one pixel. */
  predicate ImageSizeValid(size: Vec2) {
    !(size.x < 1.0 || size.y < 1.0)
  }

  /** The flag set passed to the solver. */
  function CalibrationFlags(params: CalibrateCameraParams): (flags: bv32)
    ensures (flags & FixAspectRatio) != 0
    ensures (flags & UseIntrinsicGuess) != 0 <==> !params.calculateIntrinsic
    ensures (flags & !(FixAspectRatio | UseIntrinsicGuess)) == 0
  {
    var flags: bv32 := 0;
    var flags := flags | FixAspectRatio;
    if !params.calculateIntrinsic then flags | UseIntrinsicGuess else flags
  }

  /** The initial intrinsic guess: a 4×3 identity whose first two diagonal
      entries become the width/height ratio when the aspect ratio is forced. */
  function InitialCameraMatrix(params: CalibrateCameraParams): (m: Matrix)
    requires ImageSizeValid(params.cameraImageSize)
    ensures IsMatrix(m, 4, 3)
    ensures var size := params.cameraImageSize;
      m[0][0] == m[1][1] == (if params.forceImageAspectRatio then size.x / size.y else 1.0)
    ensures m[0][0] > 0.0
    ensures forall i, j :: 0 <= i < 4 && 0 <= j < 3 && !(i == j && i < 2) ==>
      m[i][j] == (if i == j then 1.0 else 0.0)
  {
    var eye := Eye(4, 3);
    if params.forceImageAspectRatio then
      var size := params.cameraImageSize;
      var ratio := size.x / size.y;
      eye[0 := eye[0][0 := ratio]][1 := eye[1][1 := ratio]]
    else
      eye
  }

  /** `cv::Size(ImageScalar.x, ImageScalar.y)`: each float axis is truncated
      to whole pixels, which for sizes of at least one is the floor. */
  function ImageSizeOf(scalar: Vec2): (size: ImageSize)
    requires ImageSizeValid(scalar)
    ensures 1 <= size.width && size.width as real <= scalar.x < size.width as real + 1.0
    ensures 1 <= size.height && size.height as real <= scalar.y < size.height as real + 1.0
  {
    ImageSize(scalar.x.Floor, scalar.y.Floor)
  }

  /** Everything `CalibrateCamera` does before it calls the solver: the
      size check, the point check, and the request it builds. */
  function PrepareCalibration(params: CalibrateCameraParams, worldPoints: seq<Vec3>, viewPoints: seq<Vec2>)
    : (r: Result<CalibrationRequest, CalibrateError>)
    ensures !ImageSizeValid(params.cameraImageSize) ==> r == Failure(ImageSizeTooSmall)
    ensures ImageSizeValid(params.cameraImageSize) && !PointsAccepted(worldPoints, viewPoints) ==>
      r == Failure(PointsRejected)
    ensures r.Success? <==> ImageSizeValid(params.cameraImageSize) && PointsAccepted(worldPoints, viewPoints)
    ensures r.Success? ==>
      && r.value.flags == CalibrationFlags(params)
      && r.value.cameraMatrix == InitialCameraMatrix(params)
      && IsMatrix(r.value.distortionCoeffs, 5, 1)
      && (forall i :: 0 <= i < 5 ==> r.value.distortionCoeffs[i][0] == 0.0)
      && r.value.imageSize == ImageSizeOf(params.cameraImageSize)
      && r.value.objectPoints == [seq(|worldPoints|, i requires 0 <= i < |worldPoints| =>
                                    Vec3(worldPoints[i].x, worldPoints[i].z, worldPoints[i].y))]
      && r.value.imagePoints == [seq(|viewPoints|, i requires 0 <= i < |viewPoints| =>
                                   Vec2(viewPoints[i].x * params.cameraImageSize.x,
                                        viewPoints[i].y * params.cameraImageSize.y))]
  {
    var imageScalar := params.cameraImageSize;
    if imageScalar.x < 1.0 || imageScalar.y < 1.0 then
      Failure(ImageSizeTooSmall)
    else
      var flags := CalibrationFlags(params);
      var vectors := GetCalibrationVectors([], [], worldPoints, viewPoints, imageScalar);
      if !vectors.ok then
        Failure(PointsRejected)
      else
        FreshCalibrationVectors(worldPoints, viewPoints, imageScalar);
        Success(CalibrationRequest(
          vectors.worldPointsArray, vectors.viewPointsArray, ImageSizeOf(imageScalar),
          InitialCameraMatrix(params), Zeros(5, 1), flags))
  }

  /** `Rt`: the rotation in the top-left 3×3 block, the translation in
      column 3, and `(0, 0, 0, 1)` as the last row. */
  function RtMatrix(rotation: Mat3, translation: Vec3): (rt: Mat4)
    ensures forall i, j :: 0 <= i < 3 && 0 <= j < 3 ==> rt[i][j] == rotation[i][j]
    ensures rt[0][3] == translation.x && rt[1][3] == translation.y && rt[2][3] == translation.z
    ensures rt[3] == [0.0, 0.0, 0.0, 1.0]
  {
    [rotation[0] + [translation.x],
     rotation[1] + [translation.y],
     rotation[2] + [translation.z],
     [0.0, 0.0, 0.0, 1.0]]
  }

  /** `InvertHandednessMatrix`: negates the Y and Z axes. */
  function InvertHandednessMatrix(): Mat4 {
    [[1.0, 0.0, 0.0, 0.0],
     [0.0, -1.0, 0.0, 0.0],
     [0.0, 0.0, -1.0, 0.0],
     [0.0, 0.0, 0.0, 1.0]]
  }

  /** The model-view matrix before inversion: `Rt` transposed, then
      right-multiplied by the calibration-to-world swap and the handedness
      flip. */
  function ComposedModelView(rotation: Mat3, translation: Vec3): Mat4 {
    var modelView := Transpose(RtMatrix(rotation, translation));
    var swapped := Mul(modelView, CalibrationToWorldMatrix());
    Mul(swapped, InvertHandednessMatrix())
  }

  /** Right-multiplying by the handedness flip negates columns 1 and 2. */
  lemma {:induction false} FlipNegatesColumns(x: Matrix)
    requires IsMatrix(x, |x|, 4)
    ensures IsMatrix(Mul(x, InvertHandednessMatrix()), |x|, 4)
    ensures forall i :: 0 <= i < |x| ==>
      Mul(x, InvertHandednessMatrix())[i] == [x[i][0], -x[i][1], -x[i][2], x[i][3]]
  {
    var h := InvertHandednessMatrix();
    Mul4Entries(x, h);
    forall i | 0 <= i < |x|
      ensures Mul(x, h)[i] == [x[i][0], -x[i][1], -x[i][2], x[i][3]]
    {
      var a0, a1, a2, a3 := x[i][0], x[i][1], x[i][2], x[i][3];
      Mul4EntryOf(x, h, i, 0, a0, a1, a2, a3, 1.0, 0.0, 0.0, 0.0);
      Mul4EntryOf(x, h, i, 1, a0, a1, a2, a3, 0.0, -1.0, 0.0, 0.0);
      Mul4EntryOf(x, h, i, 2, a0, a1, a2, a3, 0.0, 0.0, -1.0, 0.0);
      Mul4EntryOf(x, h, i, 3, a0, a1, a2, a3, 0.0, 0.0, 0.0, 1.0);
      assert Mul(x, h)[i][0] == a0 && Mul(x, h)[i][1] == -a1;
      assert Mul(x, h)[i][2] == -a2 && Mul(x, h)[i][3] == a3;
      assert |Mul(x, h)[i]| == 4;
    }
  }

  /** The handedness flip is diagonal, hence its own transpose. */
  lemma HandednessIsSymmetric()
    ensures Transpose(InvertHandednessMatrix()) == InvertHandednessMatrix()
  {
    var h := InvertHandednessMatrix();
    assert Transpose(h)[0] == h[0];
    assert Transpose(h)[1] == h[1];
    assert Transpose(h)[2] == h[2];
    assert Transpose(h)[3] == h[3];
  }

  /** The composed model-view matrix written out: the rotation's columns
      as rows, with the second and third columns exchanged and negated, and
      the translation, likewise permuted and negated, as the last row. */
  function ModelViewClosedForm(R: Mat3, t: Vec3): Mat4 {
    [[R[0][0], -R[2][0], -R[1][0], 0.0],
     [R[0][1], -R[2][1], -R[1][1], 0.0],
     [R[0][2], -R[2][2], -R[1][2], 0.0],
     [t.x, -t.z, -t.y, 1.0]]
  }

  /** What the swap and the flip do to the transposed `Rt`: its first column
      is kept, its second and third columns are exchanged and negated, and
      its last column is kept. */
  lemma {:induction false} ComposedModelViewLayout(rotation: Mat3, translation: Vec3)
    ensures ComposedModelView(rotation, translation) == ModelViewClosedForm(rotation, translation)
  {
    var R, t := rotation, translation;
    var modelView := Transpose(RtMatrix(R, t));
    assert modelView[0] == [R[0][0], R[1][0], R[2][0], 0.0];
    assert modelView[1] == [R[0][1], R[1][1], R[2][1], 0.0];
    assert modelView[2] == [R[0][2], R[1][2], R[2][2], 0.0];
    assert modelView[3] == [t.x, t.y, t.z, 1.0];
    RemapIsSymmetricInvolution();
    SwapsColumns(modelView);
    var swapped := Mul(modelView, CalibrationToWorldMatrix());
    FlipNegatesColumns(swapped);
  }

  /** The matrix stored as the camera's extrinsic matrix. */
  function ExtrinsicMatrix(ext: Externals, rotation: Vec3, translation: Vec3): Mat4 {
    ext.inverse(ComposedModelView(ext.rodrigues(rotation), translation))
  }

  /** How a rethrown solver exception reads. */
  function ExceptionMessage(e: SolverException): string {
    match e
    case CvException(what) => CalibrationExceptionPrefix + what
    case StdException(what) => what
    case UnknownException => UnknownExceptionMessage
  }

  /** `Opencv::CalibrateCamera(Camera, Params, WorldPoints, ViewPoints)`.
      The parameters and point arrays are inputs only; the camera comes
      back with its calibration error and, when extrinsics are requested,
      its extrinsic matrix replaced. */
  function CalibrateCamera(camera: Camera, params: CalibrateCameraParams,
                           worldPoints: seq<Vec3>, viewPoints: seq<Vec2>, ext: Externals)
    : (r: Result<Camera, CalibrateError>)
    ensures !ImageSizeValid(params.cameraImageSize) ==> r == Failure(ImageSizeTooSmall)
    ensures ImageSizeValid(params.cameraImageSize) && !PointsAccepted(worldPoints, viewPoints) ==>
      r == Failure(PointsRejected)
    ensures ImageSizeValid(params.cameraImageSize) && PointsAccepted(worldPoints, viewPoints) ==>
      match ext.calibrateCamera(PrepareCalibration(params, worldPoints, viewPoints).value)
      case Raised(CvException(what)) => r == Failure(CalibrationFailed(CalibrationExceptionPrefix + what))
      case Raised(StdException(what)) => r == Failure(CalibrationFailed(what))
      case Raised(UnknownException) => r == Failure(CalibrationFailed(UnknownExceptionMessage))
      case Solved(averageError, rotation, translation) =>
        && r.Success?
        && r.value.calibrationError == averageError
        && r.value.matrix == (if params.calculateExtrinsic then ExtrinsicMatrix(ext, rotation, translation)
                              else camera.matrix)
        && r.value.(calibrationError := camera.calibrationError, matrix := camera.matrix) == camera
  {
    var request :- PrepareCalibration(params, worldPoints, viewPoints);
    match ext.calibrateCamera(request)
    case Raised(e) => Failure(CalibrationFailed(ExceptionMessage(e)))
    case Solved(averageError, rotation, translation) =>
      var calibrated := camera.(calibrationError := averageError);
      if params.calculateExtrinsic then
        Success(calibrated.(matrix := ExtrinsicMatrix(ext, rotation, translation)))
      else
        Success(calibrated)
  }

  /** With the default parameters any accepted point set reaches the solver
      with the aspect ratio fixed and no intrinsic guess, a 100×100 pixel
      image, and the plain 4×3 identity as the initial intrinsic matrix
      (the forced ratio is 100/100). */
  lemma {:induction false} DefaultParamsRequest(worldPoints: seq<Vec3>, viewPoints: seq<Vec2>)
    requires PointsAccepted(worldPoints, viewPoints)
    ensures var r := PrepareCalibration(DefaultCalibrateCameraParams(), worldPoints, viewPoints);
      && r.Success?
      && r.value.flags == FixAspectRatio
      && r.value.imageSize == ImageSize(100, 100)
      && r.value.cameraMatrix == Eye(4, 3)
  {
    var params := DefaultCalibrateCameraParams();
    var m := InitialCameraMatrix(params);
    assert (100.0 as real).Floor == 100;
    assert params.cameraImageSize.x / params.cameraImageSize.y == 1.0;
    forall i | 0 <= i < 4
      ensures m[i] == Eye(4, 3)[i]
    {
    }
  }
}
