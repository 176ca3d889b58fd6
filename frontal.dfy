/** The Haar-cascade detector: every detection `(x, y, w, h)` is blurred and/or
    outlined in place, each effect only when its flag `is True`. */
module FrontalDetection {
  import opened PyValues
  import opened Imaging
  import opened Vision

  const BOX_COLOR := Pixel(0, 0, 255)
  const BOX_THICKNESS := 2
  const VERSION_NAME := "Basic: Frontal Face Detector"

  /** The rows `frame[y:y + h]` selects in a frame of height `ih`. */
  function RowsOf(d: Dims, ih: nat): (s: Span)
    ensures forall r :: s.Contains(r) <==> d.y <= r < d.y + d.h && r < ih
  {
    Slice(d.y, d.y + d.h, ih)
  }

  /** The columns `frame[:, x:x + w]` selects in a frame of width `iw`. */
  function ColsOf(d: Dims, iw: nat): (s: Span)
    ensures forall c :: s.Contains(c) <==> d.x <= c < d.x + d.w && c < iw
  {
    Slice(d.x, d.x + d.w, iw)
  }

  /** Whether pixel `(r, c)` of a frame with `f`'s shape lies under the detection. */
  predicate Covers(f: Frame, d: Dims, r: int, c: int) {
    RowsOf(d, f.height).Contains(r) && ColsOf(d, f.width).Contains(c)
  }

  /** The outline around a detection: corners `(x, y)` and `(x + w, y + h)`. */
  function Outline(d: Dims): (cmd: DrawCmd)
    ensures cmd.Rectangle? && cmd.color == BOX_COLOR && cmd.thickness == BOX_THICKNESS
    ensures cmd.pt1 == Point(d.x, d.y) && cmd.pt2.x - cmd.pt1.x == d.w && cmd.pt2.y - cmd.pt1.y == d.h
  {
    Rectangle(Point(d.x, d.y), Point(d.x + d.w, d.y + d.h), BOX_COLOR, BOX_THICKNESS)
  }

  /** `draw_rectangle(frame, [x, y, w, h])`. The blur goes first, the outline is drawn
      over the blurred pixels. On an empty patch `cv2.blur` raises; the handler swallows
      the error, so that detection leaves the frame as it was and gets no outline. */
  function DetectionEffect(f: Frame, d: Dims, drawBox: PyValue, drawBlur: PyValue, v: Vision): (g: Frame)
    ensures SameShape(f, g)
  {
    var rows, cols := RowsOf(d, f.height), ColsOf(d, f.width);
    if !IsTrue(drawBlur) then
      (if IsTrue(drawBox) then Paint(f, Outline(d), v.raster) else f)
    else if rows.len == 0 || cols.len == 0 then f
    else
      var b := BlurInPlace(f, rows, cols, v.blur).value;
      if IsTrue(drawBox) then Paint(b, Outline(d), v.raster) else b
  }

  /** Effects are switched on only by the boolean `True`, never by a merely truthy value.
      Neither on: nothing is drawn; outline alone: exactly the outline is painted; blur on
      an empty region: `cv2.blur` raises and nothing is drawn. */
  lemma DetectionGating(f: Frame, d: Dims, drawBox: PyValue, drawBlur: PyValue, v: Vision)
    ensures !IsTrue(drawBlur) && !IsTrue(drawBox) ==> DetectionEffect(f, d, drawBox, drawBlur, v) == f
    ensures !IsTrue(drawBlur) && IsTrue(drawBox) ==> DetectionEffect(f, d, drawBox, drawBlur, v) == Paint(f, Outline(d), v.raster)
    ensures IsTrue(drawBlur) && (RowsOf(d, f.height).len == 0 || ColsOf(d, f.width).len == 0) ==>
              DetectionEffect(f, d, drawBox, drawBlur, v) == f
  {
  }

  /** Without the outline, a detection changes no pixel outside its own region. */
  lemma BlurOnlyInRegion(f: Frame, d: Dims, drawBox: PyValue, drawBlur: PyValue, v: Vision)
    requires !IsTrue(drawBox)
    ensures forall r, c :: 0 <= r < f.height && 0 <= c < f.width && !Covers(f, d, r, c) ==>
              At(DetectionEffect(f, d, drawBox, drawBlur, v), r, c) == At(f, r, c)
  {
    var rows, cols := RowsOf(d, f.height), ColsOf(d, f.width);
    if IsTrue(drawBlur) && rows.len > 0 && cols.len > 0 {
      assert DetectionEffect(f, d, drawBox, drawBlur, v) == BlurInPlace(f, rows, cols, v.blur).value;
    }
  }

  /** With the blur on, a pixel under a detection takes the blurred patch's value at its
      offset from the detection's corner `(x, y)`. */
  lemma BlurFillsRegion(f: Frame, d: Dims, drawBox: PyValue, drawBlur: PyValue, v: Vision, r: int, c: int)
    requires IsTrue(drawBlur) && !IsTrue(drawBox)
    requires Covers(f, d, r, c)
    ensures At(DetectionEffect(f, d, drawBox, drawBlur, v), r, c)
            == v.blur(Region(f, RowsOf(d, f.height), ColsOf(d, f.width)), BLUR_KERNEL, r - d.y, c - d.x)
  {
    var rows, cols := RowsOf(d, f.height), ColsOf(d, f.width);
    assert rows.Contains(r) && cols.Contains(c);
    assert DetectionEffect(f, d, drawBox, drawBlur, v) == BlurInPlace(f, rows, cols, v.blur).value;
    BlurAt(f, rows, cols, v.blur, r, c, d.y, d.x);
  }

  /** With both effects on and a non-empty region, the outline is painted over the blurred frame. */
  lemma BlurThenOutline(f: Frame, d: Dims, drawBox: PyValue, drawBlur: PyValue, v: Vision)
    requires IsTrue(drawBlur) && IsTrue(drawBox)
    requires RowsOf(d, f.height).len > 0 && ColsOf(d, f.width).len > 0
    ensures DetectionEffect(f, d, drawBox, drawBlur, v)
            == Paint(BlurInPlace(f, RowsOf(d, f.height), ColsOf(d, f.width), v.blur).value, Outline(d), v.raster)
  {
  }

  /** The detections handled so far, in the classifier's order. */
  function Detections(f: Frame, dets: seq<Dims>, drawBox: PyValue, drawBlur: PyValue, v: Vision): (g: Frame)
    ensures SameShape(f, g)
    decreases |dets|
  {
    if dets == [] then f
    else DetectionEffect(Detections(f, dets[..|dets| - 1], drawBox, drawBlur, v), dets[|dets| - 1], drawBox, drawBlur, v)
  }

  lemma DetectionsSnoc(f: Frame, dets: seq<Dims>, k: nat, drawBox: PyValue, drawBlur: PyValue, v: Vision)
    requires k < |dets|
    ensures Detections(f, dets[..k + 1], drawBox, drawBlur, v)
            == DetectionEffect(Detections(f, dets[..k], drawBox, drawBlur, v), dets[k], drawBox, drawBlur, v)
  {
    assert dets[..k + 1][..k] == dets[..k];
  }

  /** `detect_faces(frame)`: the cascade runs on the frame as it came in, then each
      detection is drawn in turn. */
  function FrontalDetect(f: Frame, drawBox: PyValue, drawBlur: PyValue, v: Vision): (g: Frame)
    ensures SameShape(f, g)
    ensures v.cascade(f) == [] ==> g == f
  {
    Detections(f, v.cascade(f), drawBox, drawBlur, v)
  }

  /** With neither flag `True` (for instance `'Blur'` or `1`), no detection changes the frame. */
  lemma {:induction false} NothingEnabledKeepsFrame(f: Frame, dets: seq<Dims>, drawBox: PyValue, drawBlur: PyValue, v: Vision)
    requires !IsTrue(drawBox) && !IsTrue(drawBlur)
    ensures Detections(f, dets, drawBox, drawBlur, v) == f
    decreases |dets|
  {
    if dets != [] {
      NothingEnabledKeepsFrame(f, dets[..|dets| - 1], drawBox, drawBlur, v);
      DetectionGating(f, dets[|dets| - 1], drawBox, drawBlur, v);
    }
  }

  /** Blur alone changes only pixels under some detection. */
  lemma {:induction false} BlurStaysInDetections(f: Frame, dets: seq<Dims>, drawBlur: PyValue, drawBox: PyValue, v: Vision,
                                               r: nat, c: nat)
    requires !IsTrue(drawBox)
    requires r < f.height && c < f.width
    requires forall k :: 0 <= k < |dets| ==> !Covers(f, dets[k], r, c)
    ensures At(Detections(f, dets, drawBox, drawBlur, v), r, c) == At(f, r, c)
    decreases |dets|
  {
    if dets != [] {
      var init, last := dets[..|dets| - 1], dets[|dets| - 1];
      assert forall k :: 0 <= k < |init| ==> init[k] == dets[k];
      BlurStaysInDetections(f, init, drawBlur, drawBox, v, r, c);
      var prev := Detections(f, init, drawBox, drawBlur, v);
      assert !Covers(prev, last, r, c) by {
        assert !Covers(f, last, r, c);
      }
      BlurOnlyInRegion(prev, last, drawBox, drawBlur, v);
    }
  }

  class FrontalFaceDetector {
    const drawBox: PyValue
    const drawBlur: PyValue
    const versionName: string

    /** `FrontalFaceDetector(draw_box, draw_blur)`; the cascade file is part of `Vision`. */
    constructor (drawBox: PyValue, drawBlur: PyValue)
      ensures this.drawBox == drawBox && this.drawBlur == drawBlur && versionName == VERSION_NAME
    {
      this.drawBox := drawBox;
      this.drawBlur := drawBlur;
      versionName := VERSION_NAME;
    }

    /** `draw_rectangle(frame, dims)`, in place. */
    method DrawRectangle(a: array2<Pixel>, d: Dims, v: Vision)
      modifies a
      ensures Pixels(a) == DetectionEffect(old(Pixels(a)), d, drawBox, drawBlur, v)
    {
      var rows, cols := RowsOf(d, a.Length0), ColsOf(d, a.Length1);
      if IsTrue(drawBlur) {
        var ok := BlurWriteBack(a, rows, cols, v.blur);
        if !ok {
          return;
        }
      }
      if IsTrue(drawBox) {
        Draw(a, Outline(d), v.raster);
      }
    }

    /** `detect_faces(frame)`, in place. */
    method DetectFaces(a: array2<Pixel>, v: Vision)
      modifies a
      ensures Pixels(a) == FrontalDetect(old(Pixels(a)), drawBox, drawBlur, v)
    {
      var faces := v.cascade(Pixels(a));
      ghost var start := Pixels(a);
      for i := 0 to |faces|
        invariant Pixels(a) == Detections(start, faces[..i], drawBox, drawBlur, v)
      {
        DetectionsSnoc(start, faces, i, drawBox, drawBlur, v);
        DrawRectangle(a, faces[i], v);
      }
      assert faces[..|faces|] == faces;
    }
  }
}
