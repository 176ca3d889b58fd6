/** The detector objects as the GUI classes hold them: which class, and the values its
    constructor bound. `Construct` is Python's positional binding for the two
    constructors; `Invoke` is a `detect_faces` call as the GUI code writes it. */
module Detectors {
  import opened PyValues
  import opened Imaging
  import opened Timestamps
  import opened Vision
  import FrontalDetection
  import MeshDetection

  datatype DetectorKind = FrontalKind | MeshKind

  /** A constructed detector. `Mesh.tuning` holds the positional arguments after
      `staticMode` (`maxFaces`, `refine_landmarks`, `minDetectionCon`, `minTrackCon`). */
  datatype DetectorConfig =
    | Frontal(drawBox: PyValue, drawBlur: PyValue)
    | Mesh(drawBox: PyValue, showInfo: PyValue, drawBlur: PyValue, staticMode: PyValue, tuning: seq<PyValue>)

  /** `FrontalFaceDetector(*args)` or `FaceMeshDetector(*args)`. The frontal constructor
      takes exactly two arguments; the mesh constructor three required ones and five
      optional ones, `staticMode` defaulting to `False`. Any other count is a `TypeError`. */
  function Construct(kind: DetectorKind, args: seq<PyValue>): (r: Result<DetectorConfig>)
    ensures r.Ok? <==> (kind == FrontalKind && |args| == 2) || (kind == MeshKind && 3 <= |args| <= 8)
    ensures r.Err? ==> r.error == TypeError
    ensures r.Ok? && kind == FrontalKind ==> r.value == Frontal(args[0], args[1])
    ensures r.Ok? && kind == MeshKind ==>
              && r.value.Mesh?
              && r.value.drawBox == args[0] && r.value.showInfo == args[1] && r.value.drawBlur == args[2]
              && r.value.staticMode == (if |args| > 3 then args[3] else PyBool(false))
              && r.value.tuning == (if |args| > 4 then args[4..] else [])
  {
    match kind
    case FrontalKind =>
      if |args| == 2 then Ok(Frontal(args[0], args[1])) else Err(TypeError)
    case MeshKind =>
      if 3 <= |args| <= 8 then
        Ok(Mesh(args[0], args[1], args[2], if |args| > 3 then args[3] else PyBool(false), if |args| > 4 then args[4..] else []))
      else Err(TypeError)
  }

  /** `self.face_detector.detect_faces(frame)` (`now == None`) or
      `self.face_detector.detect_faces(frame, current_time)`. On `None` the attribute lookup
      fails; a frontal detector accepts no time and a mesh detector requires one. Inside,
      a `None` frame makes the first OpenCV call raise, which the method itself swallows. */
  function Invoke(det: Option<DetectorConfig>, frame: Option<Frame>, now: Option<Instant>, v: Vision): (r: Result<Option<Frame>>)
    ensures det.None? ==> r == Err(AttributeError)
    ensures det.Some? && det.value.Frontal? ==> (r.Ok? <==> now.None?)
    ensures det.Some? && det.value.Mesh? ==> (r.Ok? <==> now.Some?)
    ensures r.Err? ==> r.error in {AttributeError, TypeError}
    ensures r.Ok? ==> (r.value.Some? <==> frame.Some?)
    ensures r.Ok? && frame.Some? ==> SameShape(frame.value, r.value.value)
    ensures det.Some? && det.value.Frontal? && now.None? && frame.Some? ==>
              r == Ok(Some(FrontalDetection.FrontalDetect(frame.value, det.value.drawBox, det.value.drawBlur, v)))
    ensures det.Some? && det.value.Mesh? && now.Some? && frame.Some? ==>
              r == Ok(Some(MeshDetection.MeshDetect(frame.value, det.value.drawBox, det.value.showInfo, det.value.drawBlur,
                                                    MeshOptions(det.value.staticMode, det.value.tuning), now.value, v)))
  {
    match det
    case None => Err(AttributeError)
    case Some(Frontal(drawBox, drawBlur)) =>
      if now.Some? then Err(TypeError)
      else if frame.None? then Ok(None)
      else Ok(Some(FrontalDetection.FrontalDetect(frame.value, drawBox, drawBlur, v)))
    case Some(Mesh(drawBox, showInfo, drawBlur, staticMode, tuning)) =>
      if now.None? then Err(TypeError)
      else if frame.None? then Ok(None)
      else Ok(Some(MeshDetection.MeshDetect(frame.value, drawBox, showInfo, drawBlur,
                                            MeshOptions(staticMode, tuning), now.value, v)))
  }

  /** `self.face_detector.detect_faces` bound to the held detector, with or without the
      time argument, as a function of the frame. */
  function Bound(det: Option<DetectorConfig>, now: Option<Instant>, v: Vision): Option<Frame> -> Result<Option<Frame>> {
    f => Invoke(det, f, now, v)
  }
}
