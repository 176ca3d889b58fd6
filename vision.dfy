/** The foreign calls the detectors make into OpenCV and MediaPipe. Their internals
    are not modelled: each is a function value handed to the model. */
module Vision {
  import opened PyValues
  import opened Imaging

  /** One `(x, y, w, h)` row of `detectMultiScale`'s result: the top-left corner
      and the size of a face, in pixels. */
  datatype Dims = Dims(x: nat, y: nat, w: nat, h: nat)

  /** A FaceMesh landmark projected to pixels, `(int(lm.x * iw), int(lm.y * ih))`. */
  datatype Landmark = Landmark(x: nat, y: nat)

  /** The landmarks of one face, in MediaPipe's order. */
  datatype Face = Face(landmarks: seq<Landmark>)

  /** The arguments `mp.solutions.face_mesh.FaceMesh` is built with: `staticMode`
      and whatever tuning arguments followed it. */
  datatype MeshOptions = MeshOptions(staticMode: PyValue, tuning: seq<PyValue>)

  datatype Vision = Vision(
    /** `cv2.blur`, pixel by pixel. */
    blur: BlurFn,
    /** What `cv2.rectangle` and `cv2.putText` paint. */
    raster: Raster,
    /** `cvtColor(frame, COLOR_BGR2GRAY)` followed by
        `detectMultiScale(scaleFactor=1.2, minNeighbors=5)` with the frontal cascade. */
    cascade: Frame -> seq<Dims>,
    /** `cvtColor(frame, COLOR_BGR2RGB)`. */
    toRgb: Frame -> Frame,
    /** `FaceMesh(options).process(rgb).multi_face_landmarks`; both `None` and an
        empty list are the empty sequence, since the code only tests truthiness. */
    faceMesh: (MeshOptions, Frame) -> seq<Face>)
}
