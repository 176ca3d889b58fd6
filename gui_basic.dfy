/** The basic Tkinter application: an effect menu, a feed-info checkbox and a detector
    menu set three fields, and the post-processing buttons validate the chosen file, name
    the output after it and run the held detector over every frame. */
module GuiBasic {
  import opened PyValues
  import opened Imaging
  import opened Timestamps
  import opened Vision
  import opened Detectors
  import opened MediaFiles
  import opened Capture

  const DETECTOR_OPTIONS: seq<string> := ["Basic: Frontal Face Detector", "Advanced: Mesh Face Detector"]
  const EFFECT_OPTIONS: seq<string> := ["None", "Blur"]
  const VIDEO_DONE := "Video detections processed"
  const IMAGE_DONE := "Image detections processed"

  /** The detector `set_detector_option` leaves behind. Both constructors get the two
      fields `(effect, draw_feed_info)`: the frontal one binds them as `(draw_box,
      draw_blur)`, the mesh one needs a third argument and raises `TypeError`, which the
      handler catches, keeping the previous detector. */
  function OptionChoice(current: Option<DetectorConfig>, selected: string, effect: PyValue, drawFeedInfo: PyValue): Option<DetectorConfig> {
    if selected == DETECTOR_OPTIONS[0] then
      Some(Construct(FrontalKind, [effect, drawFeedInfo]).value)
    else if selected == DETECTOR_OPTIONS[1] then
      var built := Construct(MeshKind, [effect, drawFeedInfo]);
      if built.Ok? then Some(built.value) else current
    else current
  }

  /** Choosing the mesh detector never replaces the detector; choosing the frontal one
      builds it with the effect as its box flag and the feed-info flag as its blur flag. */
  lemma OptionChoiceCases(current: Option<DetectorConfig>, selected: string, effect: PyValue, drawFeedInfo: PyValue)
    ensures selected == DETECTOR_OPTIONS[0] ==> OptionChoice(current, selected, effect, drawFeedInfo) == Some(Frontal(effect, drawFeedInfo))
    ensures selected != DETECTOR_OPTIONS[0] ==> OptionChoice(current, selected, effect, drawFeedInfo) == current
  {
    if selected == DETECTOR_OPTIONS[1] {
      assert Construct(MeshKind, [effect, drawFeedInfo]).Err?;
    }
  }

  /** The `while ret` loop from the `k`-th read on: each frame read is handed to
      `detect_faces(frame, current_time)` and written; the first failed read ends the
      loop, and the first exception leaves it without writing that frame. */
  function WhileRet(detect: DetectCall, frames: seq<Frame>, k: nat): Outcome
    decreases |frames| - k
  {
    if k >= |frames| then Outcome([], None)
    else
      match detect(Some(frames[k]))
      case Err(e) => Outcome([], Some(e))
      case Ok(g) => Then(g, WhileRet(detect, frames, k + 1))
  }

  /** One output frame per frame read, in read order, each the detector's result on it,
      until the end of the file; an exception ends the run at the frame that raised it. */
  lemma {:induction false} WhileRetWritesInOrder(detect: DetectCall, frames: seq<Frame>, k: nat)
    requires k <= |frames|
    ensures var o := WhileRet(detect, frames, k);
      && k + |o.written| <= |frames|
      && (forall i :: 0 <= i < |o.written| ==> detect(Some(frames[k + i])) == Ok(o.written[i]))
      && (o.error.None? ==> k + |o.written| == |frames|)
      && (o.error.Some? ==> k + |o.written| < |frames| && detect(Some(frames[k + |o.written|])) == Err(o.error.value))
    decreases |frames| - k
  {
    if k < |frames| {
      var r := detect(Some(frames[k]));
      if r.Ok? {
        WhileRetWritesInOrder(detect, frames, k + 1);
        var rest := WhileRet(detect, frames, k + 1);
        var o := WhileRet(detect, frames, k);
        assert o == Then(r.value, rest);
        forall i | 0 <= i < |o.written|
          ensures detect(Some(frames[k + i])) == Ok(o.written[i])
        {
          if i > 0 {
            assert o.written[i] == rest.written[i - 1];
            assert k + i == (k + 1) + (i - 1);
          }
        }
      }
    }
  }

  /** A frontal detector takes no time argument: the first frame read raises `TypeError`
      and nothing is written. */
  lemma FrontalRaisesAtFirstFrame(drawBox: PyValue, drawBlur: PyValue, frames: seq<Frame>, now: Instant, v: Vision)
    requires frames != []
    ensures WhileRet(Bound(Some(Frontal(drawBox, drawBlur)), Some(now), v), frames, 0) == Outcome([], Some(TypeError))
  {
  }

  /** `detect_over_video()` from the chosen path on. An empty path (the dialog was
      cancelled) does nothing; a wrong extension raises `ValueError` before anything is
      opened; a first read that fails makes `frame.shape` raise before the writer is
      opened. Otherwise the writer is opened on the output name and the first frame read
      is the first one processed. Only a loop that ends by itself clears the label, sets
      it to the completion text and schedules the clear. */
  function VideoSession(det: Option<DetectorConfig>, path: string, frames: seq<Frame>, now: Instant,
                        videosDir: string, v: Vision): Session
  {
    if path == [] then Aborted(None)
    else if !IsVideoPath(path) then Aborted(Some(ValueError))
    else if frames == [] then Aborted(Some(AttributeError))
    else AfterOpen(det, VideoOutput(videosDir, path, now), frames, now, v)
  }

  /** The part of a video session after the writer was opened on `out`. */
  function AfterOpen(det: Option<DetectorConfig>, out: string, frames: seq<Frame>, now: Instant, v: Vision): Session {
    var o := WhileRet(Bound(det, Some(now), v), frames, 0);
    if o.error.Some? then Session(Some(out), o.written, [], [], o.error)
    else Session(Some(out), o.written, ["", VIDEO_DONE], [CLEAR_DELAY_MS], None)
  }

  /** `detect_over_image()`: `cv2.imread` yields `image` (`None` when the file cannot be
      decoded); `cv2.imwrite` of `None` raises. */
  function ImageSession(det: Option<DetectorConfig>, path: string, image: Option<Frame>, now: Instant,
                        imagesDir: string, v: Vision): Session
  {
    if path == [] then Aborted(None)
    else if !IsImagePath(path) then Aborted(Some(ValueError))
    else
      match Invoke(det, image, Some(now), v)
      case Err(e) => Aborted(Some(e))
      case Ok(None) => Aborted(Some(CvError))
      case Ok(Some(g)) => Session(Some(ImageOutput(imagesDir, path, now)), [Some(g)], [IMAGE_DONE], [CLEAR_DELAY_MS], None)
  }

  /** A video session completes only for a valid path: its label texts and its scheduled
      clear appear exactly when no exception was caught, and then every frame was written;
      a rejected extension opens nothing. */
  lemma VideoSessionOutcomes(det: Option<DetectorConfig>, path: string, frames: seq<Frame>, now: Instant, dir: string, v: Vision)
    ensures var s := VideoSession(det, path, frames, now, dir, v);
      && (path != [] && !IsVideoPath(path) ==> s == Aborted(Some(ValueError)))
      && (s.status != [] <==> s.error.None? && path != [])
      && (s.status != [] ==> s.status == ["", VIDEO_DONE] && s.clears == [CLEAR_DELAY_MS]
                             && s.output == Some(VideoOutput(dir, path, now)) && |s.written| == |frames|)
  {
    if path != [] && IsVideoPath(path) && frames != [] {
      WhileRetWritesInOrder(Bound(det, Some(now), v), frames, 0);
    }
  }

  /** An image session completes only for a valid path and a detector call that returns
      a frame; then exactly that frame is written to the image output. */
  lemma ImageSessionOutcomes(det: Option<DetectorConfig>, path: string, image: Option<Frame>, now: Instant, dir: string, v: Vision)
    ensures var s := ImageSession(det, path, image, now, dir, v);
      && (path != [] && !IsImagePath(path) ==> s == Aborted(Some(ValueError)))
      && (s.status != [] <==> s.error.None? && path != [])
      && (s.status != [] ==> s.status == [IMAGE_DONE] && s.clears == [CLEAR_DELAY_MS]
                             && s.output == Some(ImageOutput(dir, path, now))
                             && s.written == [Invoke(det, image, Some(now), v).value])
  {
  }

  /** With a frontal detector, which is the only kind this application can hold, no video
      frame is ever written: every run past the first read ends in `TypeError`. */
  lemma FrontalVideoNeverWrites(drawBox: PyValue, drawBlur: PyValue, path: string, frames: seq<Frame>, now: Instant, dir: string, v: Vision)
    ensures var s := VideoSession(Some(Frontal(drawBox, drawBlur)), path, frames, now, dir, v);
      && s.written == []
      && (path != [] && IsVideoPath(path) && frames != [] ==> s.error == Some(TypeError))
  {
    if path != [] && IsVideoPath(path) && frames != [] {
      FrontalRaisesAtFirstFrame(drawBox, drawBlur, frames, now, v);
    }
  }

  /** Likewise no image is ever written by the frontal detector. */
  lemma FrontalImageNeverWrites(drawBox: PyValue, drawBlur: PyValue, path: string, image: Option<Frame>, now: Instant, dir: string, v: Vision)
    ensures var s := ImageSession(Some(Frontal(drawBox, drawBlur)), path, image, now, dir, v);
      && s.written == []
      && (path != [] && IsImagePath(path) ==> s.error == Some(TypeError))
  {
  }

  /** The `while ret` loop, read by read. */
  method ProcessVideo(detect: DetectCall, frames: seq<Frame>)
    returns (written: seq<Option<Frame>>, error: Option<PyError>)
    ensures Outcome(written, error) == WhileRet(detect, frames, 0)
  {
    written, error := [], None;
    var k := 0;
    var frame := Read(frames, k);
    while frame.Some?
      invariant k <= |frames| && frame == Read(frames, k)
      invariant WhileRet(detect, frames, 0) == Outcome(written + WhileRet(detect, frames, k).written, WhileRet(detect, frames, k).error)
      decreases |frames| - k
    {
      var r := detect(frame);
      if r.Err? {
        error := Some(r.error);
        return;
      }
      var rest := WhileRet(detect, frames, k + 1);
      assert WhileRet(detect, frames, k).written == [r.value] + rest.written;
      written := written + [r.value];
      k := k + 1;
      frame := Read(frames, k);
    }
  }

  /** The body of `detect_over_video()`, step by step. */
  method RunVideo(det: Option<DetectorConfig>, path: string, frames: seq<Frame>, now: Instant, videosDir: string, v: Vision)
    returns (s: Session)
    ensures s == VideoSession(det, path, frames, now, videosDir, v)
  {
    if path == [] {
      return Aborted(None);
    }
    if !IsVideoPath(path) {
      return Aborted(Some(ValueError));
    }
    var out := VideoOutput(videosDir, path, now);
    var first := Read(frames, 0);
    if first.None? {
      return Aborted(Some(AttributeError));
    }
    s := WriteFrames(det, out, frames, now, v);
  }

  /** Once the writer is open: the loop runs, and only a loop that ends by itself is
      followed by the clear, the completion text and the scheduled clear. */
  method WriteFrames(det: Option<DetectorConfig>, out: string, frames: seq<Frame>, now: Instant, v: Vision)
    returns (s: Session)
    ensures s == AfterOpen(det, out, frames, now, v)
  {
    var detect := Bound(det, Some(now), v);
    var written, error := ProcessVideo(detect, frames);
    if error.Some? {
      return Session(Some(out), written, [], [], error);
    }
    var status := [""];
    status := status + [VIDEO_DONE];
    s := Session(Some(out), written, status, [CLEAR_DELAY_MS], None);
  }

  /** The body of `detect_over_image()`, step by step. */
  method RunImage(det: Option<DetectorConfig>, path: string, image: Option<Frame>, now: Instant, imagesDir: string, v: Vision)
    returns (s: Session)
    ensures s == ImageSession(det, path, image, now, imagesDir, v)
  {
    if path == [] {
      return Aborted(None);
    }
    if !IsImagePath(path) {
      return Aborted(Some(ValueError));
    }
    var r := Invoke(det, image, Some(now), v);
    if r.Err? {
      return Aborted(Some(r.error));
    }
    if r.value.None? {
      return Aborted(Some(CvError));
    }
    s := Session(Some(ImageOutput(imagesDir, path, now)), [r.value], [IMAGE_DONE], [CLEAR_DELAY_MS], None);
  }

  class BasicApp {
    var effect: PyValue
    var drawFeedInfo: PyValue
    var faceDetector: Option<DetectorConfig>
    /** The texts `status_lbl` was set to, oldest first. */
    var statusLog: seq<string>
    /** The delays of the pending `root.after(..., clear_status_label)` calls. */
    var clears: seq<nat>

    /** Only a frontal detector is ever held. */
    predicate HoldsFrontal()
      reads this
    {
      faceDetector.Some? && faceDetector.value.Frontal?
    }

    /** The defaults: `effect = None`, `draw_feed_info = True`, and a frontal detector
        built from those two. */
    constructor ()
      ensures effect == PyNone && drawFeedInfo == PyBool(true)
      ensures faceDetector == Some(Frontal(PyNone, PyBool(true)))
      ensures statusLog == [] && clears == []
      ensures HoldsFrontal()
    {
      effect := PyNone;
      drawFeedInfo := PyBool(true);
      faceDetector := Some(Construct(FrontalKind, [PyNone, PyBool(true)]).value);
      statusLog, clears := [], [];
    }

    /** `set_draw_info()`, with `feed_info_var.get()` as `state`. */
    method SetDrawInfo(state: int)
      modifies this
      ensures drawFeedInfo == (if state == 1 then PyBool(true) else if state == 0 then PyBool(false) else old(drawFeedInfo))
      ensures effect == old(effect) && faceDetector == old(faceDetector)
      ensures statusLog == old(statusLog) && clears == old(clears)
    {
      if state == 1 {
        drawFeedInfo := PyBool(true);
      } else if state == 0 {
        drawFeedInfo := PyBool(false);
      }
    }

    /** `set_effect_option()`, with `effect_selected.get()` as `selected`. */
    method SetEffectOption(selected: string)
      modifies this
      ensures effect == (if selected in EFFECT_OPTIONS then PyStr(selected) else old(effect))
      ensures drawFeedInfo == old(drawFeedInfo) && faceDetector == old(faceDetector)
      ensures statusLog == old(statusLog) && clears == old(clears)
    {
      if selected == EFFECT_OPTIONS[0] {
        effect := PyStr("None");
      } else if selected == EFFECT_OPTIONS[1] {
        effect := PyStr("Blur");
      }
    }

    /** `set_detector_option()`: the effect and feed-info flag are refreshed first and
        stay refreshed even when the detector's constructor raises. */
    method SetDetectorOption(effectSelected: string, feedInfoState: int, detectorSelected: string)
      requires HoldsFrontal()
      modifies this
      ensures effect == (if effectSelected in EFFECT_OPTIONS then PyStr(effectSelected) else old(effect))
      ensures drawFeedInfo == (if feedInfoState == 1 then PyBool(true) else if feedInfoState == 0 then PyBool(false) else old(drawFeedInfo))
      ensures faceDetector == OptionChoice(old(faceDetector), detectorSelected, effect, drawFeedInfo)
      ensures statusLog == old(statusLog) && clears == old(clears)
      ensures HoldsFrontal()
    {
      SetEffectOption(effectSelected);
      SetDrawInfo(feedInfoState);
      OptionChoiceCases(faceDetector, detectorSelected, effect, drawFeedInfo);
      if detectorSelected == DETECTOR_OPTIONS[0] {
        var built := Construct(FrontalKind, [effect, drawFeedInfo]);
        faceDetector := Some(built.value);
      } else if detectorSelected == DETECTOR_OPTIONS[1] {
        var built := Construct(MeshKind, [effect, drawFeedInfo]);
        if built.Ok? {
          faceDetector := Some(built.value);
        }
      }
    }

    /** `detect_over_video()`; the dialog's answer, the decoded frames and the clock are
        passed in. */
    method DetectOverVideo(path: string, frames: seq<Frame>, now: Instant, videosDir: string, v: Vision)
      returns (s: Session)
      modifies this
      ensures s == VideoSession(old(faceDetector), path, frames, now, videosDir, v)
      ensures statusLog == old(statusLog) + s.status && clears == old(clears) + s.clears
      ensures effect == old(effect) && drawFeedInfo == old(drawFeedInfo) && faceDetector == old(faceDetector)
    {
      s := RunVideo(faceDetector, path, frames, now, videosDir, v);
      statusLog, clears := statusLog + s.status, clears + s.clears;
    }

    /** `detect_over_image()`; the decoded image (or `None`) is passed in. */
    method DetectOverImage(path: string, image: Option<Frame>, now: Instant, imagesDir: string, v: Vision)
      returns (s: Session)
      modifies this
      ensures s == ImageSession(old(faceDetector), path, image, now, imagesDir, v)
      ensures statusLog == old(statusLog) + s.status && clears == old(clears) + s.clears
      ensures effect == old(effect) && drawFeedInfo == old(drawFeedInfo) && faceDetector == old(faceDetector)
    {
      s := RunImage(faceDetector, path, image, now, imagesDir, v);
      statusLog, clears := statusLog + s.status, clears + s.clears;
    }
  }
}
