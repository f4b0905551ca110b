/**
 * Where the distance script gets its camera model: the persisted calibration
 * when the parameter file exists, otherwise a pinhole approximation.
 */
module CameraModel {

  /** Intrinsic matrix (rows) and distortion coefficients. */
  datatype CameraParams = CameraParams(matrix: seq<seq<real>>, distortion: seq<real>)

  /** Which of the two informational messages is printed. */
  datatype ParamSource = LoadedFromFile | DefaultValues

  /** A 3x3 pinhole intrinsic matrix with focal length f, principal point (cx, cy) and no skew. */
  predicate IsPinhole(k: seq<seq<real>>, f: real, cx: real, cy: real)
  {
    && |k| == 3 && |k[0]| == 3 && |k[1]| == 3 && |k[2]| == 3
    && k[0][0] == f && k[1][1] == f
    && k[0][2] == cx && k[1][2] == cy
    && k[0][1] == 0.0 && k[1][0] == 0.0
    && k[2][0] == 0.0 && k[2][1] == 0.0 && k[2][2] == 1.0
  }

  /** All coefficients zero: an ideal lens. */
  predicate NoDistortion(d: seq<real>)
  {
    forall k :: 0 <= k < |d| ==> d[k] == 0.0
  }

  /**
   * `camera_calibration`: the file's two arrays when it exists (loading is
   * an input here), otherwise focal length 800, principal point (320, 240)
   * and five zero distortion coefficients.
   */
  function CameraCalibration(fileExists: bool, stored: CameraParams): (r: (CameraParams, ParamSource))
    ensures fileExists ==> r == (stored, LoadedFromFile)
    ensures !fileExists ==> r.1 == DefaultValues
    ensures !fileExists ==> IsPinhole(r.0.matrix, 800.0, 320.0, 240.0)
    ensures !fileExists ==> |r.0.distortion| == 5 && NoDistortion(r.0.distortion)
  {
    if fileExists then (stored, LoadedFromFile)
    else (CameraParams([[800.0, 0.0, 320.0], [0.0, 800.0, 240.0], [0.0, 0.0, 1.0]],
                       [0.0, 0.0, 0.0, 0.0, 0.0]), DefaultValues)
  }

  /** The fallback does not depend on what a (missing) file would have held. */
  lemma DefaultIgnoresFile(a: CameraParams, b: CameraParams)
    ensures CameraCalibration(false, a) == CameraCalibration(false, b)
    ensures CameraCalibration(false, a).0.matrix == [[800.0, 0.0, 320.0], [0.0, 800.0, 240.0], [0.0, 0.0, 1.0]]
  {
  }
}
