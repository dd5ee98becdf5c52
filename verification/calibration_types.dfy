/** The records of `CvCalibrateCamera.h`: the camera model a calibration
    fills in, and the parameter blocks of the two calibration entry points,
    each with the values of its default constructor. */
module CalibrationTypes {
  import opened SoyMath

  /** `Soy::TCamera`. */
  datatype Camera = Camera(
    calibrationError: real,
    matrix: Mat4,                 // extrinsic (model-view) matrix
    intrinsicMatrix: Mat4,        // projection matrix
    cameraWorldPosition: Vec3,
    cameraRotationEulerDeg: Vec3,
    focalLength: real,
    radialDistortion: Vec2,       // k1, k2
    tangentialDistortion: Vec2,   // p1, p2
    distortionK5: real,
    focalSize: Vec2,
    lensOffset: Vec2,
    principlePoint: Vec2,
    fov: Vec2,
    aspectRatio: real)

  /** `Opencv::TCalibrateCameraParams`. */
  datatype CalibrateCameraParams = CalibrateCameraParams(
    forceImageAspectRatio: bool,
    calculateIntrinsic: bool,
    calculateExtrinsic: bool,
    cameraImageSize: Vec2,
    zeroRadialDistortion: bool)

  /** `Opencv::TGetHomographyParams`. */
  datatype GetHomographyParams = GetHomographyParams(cameraImageSize: Vec2)

  /** The default-constructed camera. The constructor initialises five
      fields; the matrices and vectors it leaves to their own types'
      defaults, taken here as the identity and the zero vector. */
  function DefaultCamera(): (c: Camera)
    ensures c.calibrationError == 0.0 && c.focalLength == 1.0 && c.distortionK5 == 0.0
    ensures c.fov == Vec2(40.0, 40.0) && c.aspectRatio == 1.0
  {
    var zero2, zero3 := Vec2(0.0, 0.0), Vec3(0.0, 0.0, 0.0);
    Camera(0.0, Eye(4, 4), Eye(4, 4), zero3, zero3, 1.0, zero2, zero2, 0.0,
           zero2, zero2, zero2, Vec2(40.0, 40.0), 1.0)
  }

  function DefaultCalibrateCameraParams(): (p: CalibrateCameraParams)
    ensures p.cameraImageSize == Vec2(100.0, 100.0)
    ensures p.calculateIntrinsic && p.forceImageAspectRatio && p.calculateExtrinsic
    ensures !p.zeroRadialDistortion
  {
    CalibrateCameraParams(
      forceImageAspectRatio := true,
      calculateIntrinsic := true,
      calculateExtrinsic := true,
      cameraImageSize := Vec2(100.0, 100.0),
      zeroRadialDistortion := false)
  }

  function DefaultGetHomographyParams(): (p: GetHomographyParams)
    ensures p.cameraImageSize == Vec2(100.0, 100.0)
  {
    GetHomographyParams(Vec2(100.0, 100.0))
  }
}
