/** The FaceMesh detector: each face's box is the extent of its landmarks, found by
    a min/max scan from the sentinels `(iw, 0, ih, 0)`; the box is blurred and/or
    outlined when the flags are truthy; an information panel follows when
    `show_info is True`. */
module MeshDetection {
  import opened PyValues
  import opened Imaging
  import opened Timestamps
  import opened Vision

  /** `cv2.FONT_HERSHEY_COMPLEX_SMALL` */
  const FONT: nat := 5
  const TEXT_COLOR := Pixel(0, 255, 255)
  const BOX_COLOR := Pixel(0, 0, 255)
  const BOX_THICKNESS := 2
  /** `1 // 2` */
  const TEXT_THICKNESS := 0
  const SCALE: real := 0.5
  const VERSION_NAME := "Advanced: Mesh Face Detector"
  const SEPARATOR := "--------------------"

  /** `x_min, x_max, y_min, y_max` */
  datatype Bounds = Bounds(xMin: nat, xMax: nat, yMin: nat, yMax: nat)

  /** One pass of the scan's loop body: each bound moves only on strict improvement. */
  function Step(b: Bounds, lm: Landmark): Bounds {
    Bounds(if lm.x < b.xMin then lm.x else b.xMin,
           if lm.x > b.xMax then lm.x else b.xMax,
           if lm.y < b.yMin then lm.y else b.yMin,
           if lm.y > b.yMax then lm.y else b.yMax)
  }

  /** The bounds after scanning `lms` from the sentinels, one `Step` per landmark. */
  function Scan(lms: seq<Landmark>, iw: nat, ih: nat): Bounds
    decreases |lms|
  {
    if lms == [] then Bounds(iw, 0, ih, 0) else Step(Scan(lms[..|lms| - 1], iw, ih), lms[|lms| - 1])
  }

  /** Each bound the scan yields is the extreme of its sentinel and the landmarks: no
      landmark lies beyond it, and it is attained by the sentinel or by a landmark. So
      `x_min == min(iw, min xs)`, `x_max == max(0, max xs)`, and likewise for `y`; with no
      landmark the box is the inverted sentinel box `(iw, 0, ih, 0)`. */
  lemma {:induction false} ScanExtrema(lms: seq<Landmark>, iw: nat, ih: nat)
    ensures var b := Scan(lms, iw, ih);
      && (lms == [] ==> b == Bounds(iw, 0, ih, 0))
      && b.xMin <= iw && b.yMin <= ih
      && (forall k :: 0 <= k < |lms| ==> b.xMin <= lms[k].x <= b.xMax && b.yMin <= lms[k].y <= b.yMax)
      && (b.xMin == iw || exists k :: 0 <= k < |lms| && lms[k].x == b.xMin)
      && (b.xMax == 0 || exists k :: 0 <= k < |lms| && lms[k].x == b.xMax)
      && (b.yMin == ih || exists k :: 0 <= k < |lms| && lms[k].y == b.yMin)
      && (b.yMax == 0 || exists k :: 0 <= k < |lms| && lms[k].y == b.yMax)
    decreases |lms|
  {
    if lms != [] {
      var init := lms[..|lms| - 1];
      ScanExtrema(init, iw, ih);
      assert forall k :: 0 <= k < |init| ==> init[k] == lms[k];
    }
  }

  /** The scan in `draw_rectangle`: four variables updated landmark by landmark. */
  method ScanBounds(lms: seq<Landmark>, iw: nat, ih: nat) returns (xMin: nat, xMax: nat, yMin: nat, yMax: nat)
    ensures Bounds(xMin, xMax, yMin, yMax) == Scan(lms, iw, ih)
  {
    xMin, xMax, yMin, yMax := iw, 0, ih, 0;
    for i := 0 to |lms|
      invariant Bounds(xMin, xMax, yMin, yMax) == Scan(lms[..i], iw, ih)
    {
      assert lms[..i + 1][..i] == lms[..i];
      var x, y := lms[i].x, lms[i].y;
      if x < xMin {
        xMin := x;
      }
      if x > xMax {
        xMax := x;
      }
      if y < yMin {
        yMin := y;
      }
      if y > yMax {
        yMax := y;
      }
    }
    assert lms[..|lms|] == lms;
  }

  /** The rows `frame[y_min:y_max]` selects. */
  function BoxRows(b: Bounds, ih: nat): (s: Span)
    ensures forall r :: s.Contains(r) <==> b.yMin <= r < b.yMax && r < ih
  {
    Slice(b.yMin, b.yMax, ih)
  }

  /** The columns `frame[:, x_min:x_max]` selects. */
  function BoxCols(b: Bounds, iw: nat): (s: Span)
    ensures forall c :: s.Contains(c) <==> b.xMin <= c < b.xMax && c < iw
  {
    Slice(b.xMin, b.xMax, iw)
  }

  /** The face's box in a frame of `f`'s shape. */
  function FaceBox(f: Frame, face: Face): Bounds {
    Scan(face.landmarks, f.width, f.height)
  }

  predicate InBox(f: Frame, face: Face, r: int, c: int) {
    BoxRows(FaceBox(f, face), f.height).Contains(r) && BoxCols(FaceBox(f, face), f.width).Contains(c)
  }

  /** `cv2.rectangle(frame, (x_min, y_min), (x_max, y_max), BOX_COLOR, BOX_THICKNESS)` */
  function BoxOutline(b: Bounds): (cmd: DrawCmd)
    ensures cmd.Rectangle? && cmd.color == BOX_COLOR && cmd.thickness == BOX_THICKNESS
    ensures cmd.pt1 == Point(b.xMin, b.yMin) && cmd.pt2 == Point(b.xMax, b.yMax)
  {
    Rectangle(Point(b.xMin, b.yMin), Point(b.xMax, b.yMax), BOX_COLOR, BOX_THICKNESS)
  }

  /** `draw_rectangle(frame, faceLms)`: blur first, outline after. `cv2.blur` raises on
      an empty patch (always the case for a face without landmarks, whose box is the
      inverted sentinel box); the handler swallows it and the face gets no outline. */
  function FaceEffect(f: Frame, face: Face, drawBox: PyValue, drawBlur: PyValue, v: Vision): (g: Frame)
    ensures SameShape(f, g)
  {
    var b := FaceBox(f, face);
    var rows, cols := BoxRows(b, f.height), BoxCols(b, f.width);
    if !Truthy(drawBlur) then
      (if Truthy(drawBox) then Paint(f, BoxOutline(b), v.raster) else f)
    else if rows.len == 0 || cols.len == 0 then f
    else
      var blurred := BlurInPlace(f, rows, cols, v.blur).value;
      if Truthy(drawBox) then Paint(blurred, BoxOutline(b), v.raster) else blurred
  }

  /** Unlike the frontal detector's, these flags are tested for truthiness. Both falsy:
      nothing is drawn; outline alone: exactly the outline is painted; blur on a face
      without landmarks: `cv2.blur` raises on the empty patch and nothing is drawn. */
  lemma FaceEffectGating(f: Frame, face: Face, drawBox: PyValue, drawBlur: PyValue, v: Vision)
    ensures !Truthy(drawBlur) && !Truthy(drawBox) ==> FaceEffect(f, face, drawBox, drawBlur, v) == f
    ensures !Truthy(drawBlur) && Truthy(drawBox) ==>
              FaceEffect(f, face, drawBox, drawBlur, v) == Paint(f, BoxOutline(FaceBox(f, face)), v.raster)
    ensures Truthy(drawBlur) && face.landmarks == [] ==> FaceEffect(f, face, drawBox, drawBlur, v) == f
  {
  }

  /** Without the outline, a face changes no pixel outside its box. */
  lemma BlurOnlyInBox(f: Frame, face: Face, drawBox: PyValue, drawBlur: PyValue, v: Vision)
    requires !Truthy(drawBox)
    ensures forall r, c :: 0 <= r < f.height && 0 <= c < f.width && !InBox(f, face, r, c) ==>
              At(FaceEffect(f, face, drawBox, drawBlur, v), r, c) == At(f, r, c)
  {
    var b := FaceBox(f, face);
    var rows, cols := BoxRows(b, f.height), BoxCols(b, f.width);
    if Truthy(drawBlur) && rows.len > 0 && cols.len > 0 {
      assert FaceEffect(f, face, drawBox, drawBlur, v) == BlurInPlace(f, rows, cols, v.blur).value;
    }
  }

  /** A non-empty box slice starts at the box's own corner. */
  lemma BoxCorner(b: Bounds, ih: nat, iw: nat)
    ensures BoxRows(b, ih).len > 0 ==> BoxRows(b, ih).lo == b.yMin
    ensures BoxCols(b, iw).len > 0 ==> BoxCols(b, iw).lo == b.xMin
  {
  }

  /** With the blur on, a pixel in the box (clamped to the frame) takes the blurred
      patch's value at its offset from the box's corner `(x_min, y_min)`. */
  lemma BlurFillsBox(f: Frame, face: Face, drawBox: PyValue, drawBlur: PyValue, v: Vision, r: int, c: int)
    requires Truthy(drawBlur) && !Truthy(drawBox)
    requires InBox(f, face, r, c)
    ensures At(FaceEffect(f, face, drawBox, drawBlur, v), r, c)
            == v.blur(Region(f, BoxRows(FaceBox(f, face), f.height), BoxCols(FaceBox(f, face), f.width)),
                      BLUR_KERNEL, r - FaceBox(f, face).yMin, c - FaceBox(f, face).xMin)
  {
    var b := FaceBox(f, face);
    var rows, cols := BoxRows(b, f.height), BoxCols(b, f.width);
    BoxCorner(b, f.height, f.width);
    BlurAloneIsBlurInPlace(f, face, drawBox, drawBlur, v);
    BlurAt(f, rows, cols, v.blur, r, c, b.yMin, b.xMin);
  }

  lemma BlurAloneIsBlurInPlace(f: Frame, face: Face, drawBox: PyValue, drawBlur: PyValue, v: Vision)
    requires Truthy(drawBlur) && !Truthy(drawBox)
    requires BoxRows(FaceBox(f, face), f.height).len > 0 && BoxCols(FaceBox(f, face), f.width).len > 0
    ensures FaceEffect(f, face, drawBox, drawBlur, v)
            == BlurInPlace(f, BoxRows(FaceBox(f, face), f.height), BoxCols(FaceBox(f, face), f.width), v.blur).value
  {
  }

  /** With both effects on and a non-empty box, the outline is painted over the blurred frame. */
  lemma OutlineOverBlur(f: Frame, face: Face, drawBox: PyValue, drawBlur: PyValue, v: Vision)
    requires Truthy(drawBlur) && Truthy(drawBox)
    requires BoxRows(FaceBox(f, face), f.height).len > 0 && BoxCols(FaceBox(f, face), f.width).len > 0
    ensures FaceEffect(f, face, drawBox, drawBlur, v)
            == Paint(BlurInPlace(f, BoxRows(FaceBox(f, face), f.height), BoxCols(FaceBox(f, face), f.width), v.blur).value,
                     BoxOutline(FaceBox(f, face)), v.raster)
  {
  }

  /** The faces handled so far, in MediaPipe's order. */
  function FacesEffect(f: Frame, faces: seq<Face>, drawBox: PyValue, drawBlur: PyValue, v: Vision): (g: Frame)
    ensures SameShape(f, g)
    decreases |faces|
  {
    if faces == [] then f
    else FaceEffect(FacesEffect(f, faces[..|faces| - 1], drawBox, drawBlur, v), faces[|faces| - 1], drawBox, drawBlur, v)
  }

  lemma FacesEffectSnoc(f: Frame, faces: seq<Face>, k: nat, drawBox: PyValue, drawBlur: PyValue, v: Vision)
    requires k < |faces|
    ensures FacesEffect(f, faces[..k + 1], drawBox, drawBlur, v)
            == FaceEffect(FacesEffect(f, faces[..k], drawBox, drawBlur, v), faces[k], drawBox, drawBlur, v)
  {
    assert faces[..k + 1][..k] == faces[..k];
  }

  /** With both flags falsy, drawing every face leaves the frame as it was. */
  lemma {:induction false} NoEffectKeepsFrame(f: Frame, faces: seq<Face>, drawBox: PyValue, drawBlur: PyValue, v: Vision)
    requires !Truthy(drawBox) && !Truthy(drawBlur)
    ensures FacesEffect(f, faces, drawBox, drawBlur, v) == f
    decreases |faces|
  {
    if faces != [] {
      NoEffectKeepsFrame(f, faces[..|faces| - 1], drawBox, drawBlur, v);
      FaceEffectGating(f, faces[|faces| - 1], drawBox, drawBlur, v);
    }
  }

  /** Blur alone changes only pixels inside some face's box. */
  lemma {:induction false} BlurStaysInBoxes(f: Frame, faces: seq<Face>, drawBox: PyValue, drawBlur: PyValue, v: Vision,
                                          r: nat, c: nat)
    requires !Truthy(drawBox)
    requires r < f.height && c < f.width
    requires forall k :: 0 <= k < |faces| ==> !InBox(f, faces[k], r, c)
    ensures At(FacesEffect(f, faces, drawBox, drawBlur, v), r, c) == At(f, r, c)
    decreases |faces|
  {
    if faces != [] {
      var init, last := faces[..|faces| - 1], faces[|faces| - 1];
      assert forall k :: 0 <= k < |init| ==> init[k] == faces[k];
      BlurStaysInBoxes(f, init, drawBox, drawBlur, v, r, c);
      var prev := FacesEffect(f, init, drawBox, drawBlur, v);
      assert !InBox(prev, last, r, c) by {
        assert !InBox(f, last, r, c);
      }
      BlurOnlyInBox(prev, last, drawBox, drawBlur, v);
    }
  }

  /** `f'Faces: {len(...)}'`; the count reads back from the text. */
  function CountText(n: nat): (s: string)
    ensures |s| > 7 && s[..7] == "Faces: " && DigitsValue(s[7..]) == n
  {
    var s := "Faces: " + NatToString(n);
    assert s[7..] == NatToString(n);
    NatToStringRoundTrip(n);
    s
  }

  /** `f'blur: {self.draw_blur}'` */
  function EffectText(drawBlur: PyValue): (s: string)
    ensures |s| >= 6 && s[..6] == "blur: " && s[6..] == Str(drawBlur)
  {
    "blur: " + Str(drawBlur)
  }

  /** One line of the panel, `cv2.putText(frame, text, (5, y), FONT, SCALE, TEXT_COLOR, TEXT_THICKNESS)`. */
  function Line(text: string, y: int): DrawCmd {
    PutText(text, Point(5, y), FONT, SCALE, TEXT_COLOR, TEXT_THICKNESS)
  }

  /** The panel `draw_info` paints, in drawing order. */
  function InfoCommands(effectText: string, faceCount: string, now: Instant): seq<DrawCmd> {
    [Rectangle(Point(0, 0), Point(195, 80), BLACK, -1),
     Line(VERSION_NAME, 20), Line(effectText, 30), Line(faceCount, 40),
     Line(SEPARATOR, 50), Line(DateText(now), 60), Line(TimeText(now), 70)]
  }

  /** The panel's layout: a filled black box over `(0, 0)-(195, 80)` drawn first, then
      six lines ten pixels apart from `y = 20`, each starting inside the box: the
      detector's name, the effect, the count, a separator, the date and the time. */
  lemma InfoLayout(effectText: string, faceCount: string, now: Instant)
    ensures var cmds := InfoCommands(effectText, faceCount, now);
      && |cmds| == 7
      && cmds[0] == Rectangle(Point(0, 0), Point(195, 80), BLACK, -1)
      && (forall k :: 1 <= k < 7 ==> cmds[k].PutText? && cmds[k] == Line(cmds[k].text, 10 + 10 * k))
      && (forall k :: 1 <= k < 7 ==> cmds[k].PutText? && 0 <= cmds[k].org.x < 195 && 0 < cmds[k].org.y < 80)
      && cmds[1].text == VERSION_NAME && cmds[2].text == effectText && cmds[3].text == faceCount
      && cmds[4].text == SEPARATOR && cmds[5].text == DateText(now) && cmds[6].text == TimeText(now)
  {
  }

  /** `draw_info(frame, face_count, effect_text, timestamp)`: the panel is drawn only when
      `show_info is True`. */
  function InfoEffect(f: Frame, showInfo: PyValue, faceCount: string, effectText: string, now: Instant, v: Vision): (g: Frame)
    ensures SameShape(f, g)
    ensures !IsTrue(showInfo) ==> g == f
  {
    if IsTrue(showInfo) then PaintAll(f, InfoCommands(effectText, faceCount, now), v.raster) else f
  }

  /** With the panel on, a pixel none of the panel's seven calls paints keeps its value. */
  lemma InfoKeepsUnpainted(f: Frame, showInfo: PyValue, faceCount: string, effectText: string, now: Instant, v: Vision,
                           r: nat, c: nat)
    requires r < f.height && c < f.width
    requires forall k :: 0 <= k < 7 ==> v.raster(InfoCommands(effectText, faceCount, now)[k], r, c).None?
    ensures At(InfoEffect(f, showInfo, faceCount, effectText, now, v), r, c) == At(f, r, c)
  {
    if IsTrue(showInfo) {
      PaintAllKeeps(f, InfoCommands(effectText, faceCount, now), v.raster, r, c);
    }
  }

  /** `detect_faces(frame, current_time)` on a frame: the landmarks come from the frame as
      it came in; with no face, neither boxes nor the panel are drawn. */
  function MeshDetect(f: Frame, drawBox: PyValue, showInfo: PyValue, drawBlur: PyValue, opts: MeshOptions,
                      now: Instant, v: Vision): (g: Frame)
    ensures SameShape(f, g)
    ensures v.faceMesh(opts, v.toRgb(f)) == [] ==> g == f
  {
    var faces := v.faceMesh(opts, v.toRgb(f));
    if faces == [] then f
    else InfoEffect(FacesEffect(f, faces, drawBox, drawBlur, v), showInfo, CountText(|faces|), EffectText(drawBlur), now, v)
  }

  /** With both flags falsy and the panel off, detection leaves the frame as it was. */
  lemma MeshNothingEnabled(f: Frame, drawBox: PyValue, showInfo: PyValue, drawBlur: PyValue, opts: MeshOptions,
                           now: Instant, v: Vision)
    requires !Truthy(drawBox) && !Truthy(drawBlur) && !IsTrue(showInfo)
    ensures MeshDetect(f, drawBox, showInfo, drawBlur, opts, now, v) == f
  {
    NoEffectKeepsFrame(f, v.faceMesh(opts, v.toRgb(f)), drawBox, drawBlur, v);
  }

  /** When faces are found and the panel is on, the panel is drawn last, over the boxes,
      with the face count and the blur flag. */
  lemma PanelOverBoxes(f: Frame, drawBox: PyValue, showInfo: PyValue, drawBlur: PyValue, opts: MeshOptions,
                       now: Instant, v: Vision)
    requires v.faceMesh(opts, v.toRgb(f)) != [] && IsTrue(showInfo)
    ensures var faces := v.faceMesh(opts, v.toRgb(f));
      MeshDetect(f, drawBox, showInfo, drawBlur, opts, now, v)
      == PaintAll(FacesEffect(f, faces, drawBox, drawBlur, v), InfoCommands(EffectText(drawBlur), CountText(|faces|), now), v.raster)
  {
  }

  lemma MeshDetectCases(f: Frame, drawBox: PyValue, showInfo: PyValue, drawBlur: PyValue, opts: MeshOptions,
                        now: Instant, v: Vision)
    ensures var faces := v.faceMesh(opts, v.toRgb(f));
      MeshDetect(f, drawBox, showInfo, drawBlur, opts, now, v)
      == if faces == [] then f
         else InfoEffect(FacesEffect(f, faces, drawBox, drawBlur, v), showInfo, CountText(|faces|), EffectText(drawBlur), now, v)
  {
  }

  class FaceMeshDetector {
    /** The last `faceMesh.process` result, `None` before the first call. */
    var results: Option<seq<Face>>
    /** The last RGB conversion, `None` before the first call. */
    var imgRGB: Option<Frame>
    const drawBox: PyValue
    const showInfo: PyValue
    const drawBlur: PyValue
    const options: MeshOptions
    const versionName: string

    /** `FaceMeshDetector(draw_box, show_info, draw_blur, staticMode, *tuning)` */
    constructor (drawBox: PyValue, showInfo: PyValue, drawBlur: PyValue, staticMode: PyValue, tuning: seq<PyValue>)
      ensures this.drawBox == drawBox && this.showInfo == showInfo && this.drawBlur == drawBlur
      ensures options == MeshOptions(staticMode, tuning) && versionName == VERSION_NAME
      ensures results == None && imgRGB == None
    {
      this.drawBox := drawBox;
      this.showInfo := showInfo;
      this.drawBlur := drawBlur;
      options := MeshOptions(staticMode, tuning);
      versionName := VERSION_NAME;
      results := None;
      imgRGB := None;
    }

    /** `draw_rectangle(frame, faceLms)`, in place. */
    method DrawRectangle(a: array2<Pixel>, face: Face, v: Vision)
      modifies a
      ensures Pixels(a) == FaceEffect(old(Pixels(a)), face, drawBox, drawBlur, v)
    {
      var xMin, xMax, yMin, yMax := ScanBounds(face.landmarks, a.Length1, a.Length0);
      var b := Bounds(xMin, xMax, yMin, yMax);
      if Truthy(drawBlur) {
        var ok := BlurWriteBack(a, BoxRows(b, a.Length0), BoxCols(b, a.Length1), v.blur);
        if !ok {
          return;
        }
      }
      if Truthy(drawBox) {
        Draw(a, BoxOutline(b), v.raster);
      }
    }

    /** `draw_info(frame, face_count, effect_text, timestamp)`, in place: the panel's seven
        drawing calls, in order. */
    method DrawInfo(a: array2<Pixel>, faceCount: string, effectText: string, now: Instant, v: Vision)
      modifies a
      ensures Pixels(a) == InfoEffect(old(Pixels(a)), showInfo, faceCount, effectText, now, v)
    {
      if !IsTrue(showInfo) {
        return;
      }
      DrawAll(a, InfoCommands(effectText, faceCount, now), v.raster);
    }

    /** The loop of `detect_faces`: `draw_rectangle` once per face, in MediaPipe's order. */
    method DrawFaces(a: array2<Pixel>, faces: seq<Face>, v: Vision)
      modifies a
      ensures Pixels(a) == FacesEffect(old(Pixels(a)), faces, drawBox, drawBlur, v)
    {
      ghost var start := Pixels(a);
      for i := 0 to |faces|
        invariant Pixels(a) == FacesEffect(start, faces[..i], drawBox, drawBlur, v)
      {
        FacesEffectSnoc(start, faces, i, drawBox, drawBlur, v);
        DrawRectangle(a, faces[i], v);
      }
      assert faces[..|faces|] == faces;
    }

    /** `detect_faces(frame, current_time)`, in place: converts and processes the frame,
        keeps the conversion and the landmarks, then draws every face and the panel. */
    method DetectFaces(a: array2<Pixel>, now: Instant, v: Vision)
      modifies this, a
      ensures imgRGB == Some(v.toRgb(old(Pixels(a))))
      ensures results == Some(v.faceMesh(options, v.toRgb(old(Pixels(a)))))
      ensures Pixels(a) == MeshDetect(old(Pixels(a)), drawBox, showInfo, drawBlur, options, now, v)
    {
      var start := Pixels(a);
      var rgb := v.toRgb(start);
      imgRGB := Some(rgb);
      var faces := v.faceMesh(options, rgb);
      results := Some(faces);
      MeshDetectCases(start, drawBox, showInfo, drawBlur, options, now, v);
      if faces != [] {
        DrawFaces(a, faces, v);
        DrawInfo(a, CountText(|faces|), EffectText(drawBlur), now, v);
      }
    }
  }
}
