/** The post-processing panel of the customtkinter application: each button takes its
    detector from the settings panel, validates the chosen file, runs the detector over it
    and reports through a status label; every exception is caught and printed. */
module PostProcessing {
  import opened PyValues
  import opened Imaging
  import opened Timestamps
  import opened Vision
  import opened Detectors
  import opened MediaFiles
  import opened Capture

  const VIDEO_BUSY := "Processing video..."
  const VIDEO_DONE := "Video detections processed"
  const IMAGE_BUSY := "Processing image..."
  const IMAGE_DONE := "Image detections processed"

  /** `for frame_count in range(total_frames)` from iteration `i` on. The first frame was
      read before the loop, so iteration `i` reads the frame at position `i + 1`, which is
      `None` once the file is exhausted; each is handed to `detect_faces(frame)` and
      written, and the first exception leaves the loop. */
  function ForFrames(detect: DetectCall, frames: seq<Frame>, total: int, i: nat): Outcome
    decreases total - i
  {
    if i >= total then Outcome([], None)
    else
      match detect(Read(frames, i + 1))
      case Err(e) => Outcome([], Some(e))
      case Ok(g) => Then(g, ForFrames(detect, frames, total, i + 1))
  }

  /** The loop writes one frame per iteration, the detector's result on the frame read in
      it, so the first decoded frame is never written; `range` of a negative count is
      empty. An exception ends the loop at the iteration that raised it. */
  lemma {:induction false} ForFramesWritesEach(detect: DetectCall, frames: seq<Frame>, total: int, i: nat)
    requires i <= total || total < 0
    ensures var o := ForFrames(detect, frames, total, i);
      var count := if total < 0 then 0 else total - i;
      && |o.written| <= count
      && (forall j :: 0 <= j < |o.written| ==> detect(Read(frames, i + j + 1)) == Ok(o.written[j]))
      && (o.error.None? ==> |o.written| == count)
      && (o.error.Some? ==> |o.written| < count && detect(Read(frames, i + |o.written| + 1)) == Err(o.error.value))
    decreases total - i
  {
    if i < total {
      var r := detect(Read(frames, i + 1));
      if r.Ok? {
        ForFramesWritesEach(detect, frames, total, i + 1);
        var rest := ForFrames(detect, frames, total, i + 1);
        var o := ForFrames(detect, frames, total, i);
        assert o == Then(r.value, rest);
        forall j | 0 <= j < |o.written|
          ensures detect(Read(frames, i + j + 1)) == Ok(o.written[j])
        {
          if j > 0 {
            assert o.written[j] == rest.written[j - 1];
            assert i + j + 1 == (i + 1) + (j - 1) + 1;
          }
        }
      }
    }
  }

  /** A frontal detector called without a time never raises: exactly `total_frames` frames
      are written, the `k`-th being the detector's result on decoded frame `k + 1`, and
      `None` past the end of the file. */
  lemma FrontalWritesTotal(drawBox: PyValue, drawBlur: PyValue, frames: seq<Frame>, total: nat, v: Vision)
    ensures var detect := Bound(Some(Frontal(drawBox, drawBlur)), None, v);
      var o := ForFrames(detect, frames, total, 0);
      && o.error.None? && |o.written| == total
      && (forall k :: 0 <= k < total ==> o.written[k] == detect(Read(frames, k + 1)).value)
      && (forall k :: 0 <= k < total ==> (o.written[k].Some? <==> k + 1 < |frames|))
  {
    var detect := Bound(Some(Frontal(drawBox, drawBlur)), None, v);
    NoErrorWritesAll(detect, frames, total, 0);
    ForFramesWritesEach(detect, frames, total, 0);
  }

  /** A detector call that never raises lets the loop run to its end. */
  lemma {:induction false} NoErrorWritesAll(detect: DetectCall, frames: seq<Frame>, total: int, i: nat)
    requires forall f :: detect(f).Ok?
    ensures ForFrames(detect, frames, total, i).error.None?
    decreases total - i
  {
    if i < total {
      assert detect(Read(frames, i + 1)).Ok?;
      NoErrorWritesAll(detect, frames, total, i + 1);
    }
  }

  /** A mesh detector needs the time argument this panel never passes: the first
      iteration raises `TypeError` and nothing is written. */
  lemma MeshRaisesAtOnce(d: DetectorConfig, frames: seq<Frame>, total: int, v: Vision)
    requires d.Mesh? && total > 0
    ensures ForFrames(Bound(Some(d), None, v), frames, total, 0) == Outcome([], Some(TypeError))
  {
  }

  /** `detect_over_video()` once the detector is set: an empty path does nothing, a wrong
      extension raises `ValueError`, a failed first read makes `frame.shape` raise before
      the writer is opened. Otherwise the label reads "Processing video..." while the loop
      runs; a loop that ends by itself clears it, shows the completion text and schedules
      the clear. */
  function VideoSession(det: Option<DetectorConfig>, path: string, frames: seq<Frame>, total: int, now: Instant,
                        videosDir: string, v: Vision): Session
  {
    if path == [] then Aborted(None)
    else if !IsVideoPath(path) then Aborted(Some(ValueError))
    else if frames == [] then Aborted(Some(AttributeError))
    else AfterOpen(det, VideoOutput(videosDir, path, now), frames, total, v)
  }

  /** The part of a video session after the writer was opened on `out`. */
  function AfterOpen(det: Option<DetectorConfig>, out: string, frames: seq<Frame>, total: int, v: Vision): Session {
    var o := ForFrames(Bound(det, None, v), frames, total, 0);
    if o.error.Some? then Session(Some(out), o.written, [VIDEO_BUSY], [], o.error)
    else Session(Some(out), o.written, [VIDEO_BUSY, "", VIDEO_DONE], [CLEAR_DELAY_MS], None)
  }

  /** `detect_over_image()` once the detector is set: the label reads "Processing image..."
      from just before the detector runs; `cv2.imwrite` of `None` raises and leaves it so. */
  function ImageSession(det: Option<DetectorConfig>, path: string, image: Option<Frame>, now: Instant,
                        imagesDir: string, v: Vision): Session
  {
    if path == [] then Aborted(None)
    else if !IsImagePath(path) then Aborted(Some(ValueError))
    else
      match Invoke(det, image, None, v)
      case Err(e) => Session(None, [], [IMAGE_BUSY], [], Some(e))
      case Ok(None) => Session(None, [], [IMAGE_BUSY], [], Some(CvError))
      case Ok(Some(g)) => Session(Some(ImageOutput(imagesDir, path, now)), [Some(g)], [IMAGE_BUSY, IMAGE_DONE], [CLEAR_DELAY_MS], None)
  }

  /** On the success path the label goes "Processing video...", "", "Video detections
      processed" with one clear scheduled after 5000 ms, and `total_frames` frames were
      written; on any other path after the writer opened it stays at "Processing video...". */
  lemma VideoStatusSequence(det: Option<DetectorConfig>, path: string, frames: seq<Frame>, total: int, now: Instant, dir: string, v: Vision)
    ensures var s := VideoSession(det, path, frames, total, now, dir, v);
      && (path != [] && !IsVideoPath(path) ==> s == Aborted(Some(ValueError)))
      && (s.output.Some? <==> path != [] && IsVideoPath(path) && frames != [])
      && (s.output.Some? && s.error.None? ==>
            s.status == [VIDEO_BUSY, "", VIDEO_DONE] && s.clears == [CLEAR_DELAY_MS]
            && |s.written| == (if total < 0 then 0 else total))
      && (s.output.Some? && s.error.Some? ==> s.status == [VIDEO_BUSY] && s.clears == [])
  {
    if path != [] && IsVideoPath(path) && frames != [] {
      ForFramesWritesEach(Bound(det, None, v), frames, total, 0);
    }
  }

  /** The image label goes "Processing image...", "Image detections processed" exactly
      when the detector returned a frame, which is then the one frame written. */
  lemma ImageStatusSequence(det: Option<DetectorConfig>, path: string, image: Option<Frame>, now: Instant, dir: string, v: Vision)
    ensures var s := ImageSession(det, path, image, now, dir, v);
      && (path != [] && !IsImagePath(path) ==> s == Aborted(Some(ValueError)))
      && (s.error.None? && path != [] <==> path != [] && IsImagePath(path) && Invoke(det, image, None, v).Ok? && image.Some?)
      && (s.error.None? && path != [] ==> s.status == [IMAGE_BUSY, IMAGE_DONE] && s.clears == [CLEAR_DELAY_MS]
                                          && s.written == [Invoke(det, image, None, v).value])
  {
  }

  /** The loop, iteration by iteration. */
  method ProcessFrames(detect: DetectCall, frames: seq<Frame>, total: int)
    returns (written: seq<Option<Frame>>, error: Option<PyError>)
    ensures Outcome(written, error) == ForFrames(detect, frames, total, 0)
  {
    written, error := [], None;
    if total <= 0 {
      return;
    }
    for i := 0 to total
      invariant ForFrames(detect, frames, total, 0) == Outcome(written + ForFrames(detect, frames, total, i).written,
                                                               ForFrames(detect, frames, total, i).error)
    {
      var frame := Read(frames, i + 1);
      var r := detect(frame);
      if r.Err? {
        error := Some(r.error);
        return;
      }
      var rest := ForFrames(detect, frames, total, i + 1);
      assert ForFrames(detect, frames, total, i).written == [r.value] + rest.written;
      written := written + [r.value];
    }
  }

  /** The body of `detect_over_video()` after `create_detector`, step by step. */
  method RunVideo(det: Option<DetectorConfig>, path: string, frames: seq<Frame>, total: int, now: Instant,
                  videosDir: string, v: Vision)
    returns (s: Session)
    ensures s == VideoSession(det, path, frames, total, now, videosDir, v)
  {
    if path == [] {
      return Aborted(None);
    }
    if !IsVideoPath(path) {
      return Aborted(Some(ValueError));
    }
    var out := VideoOutput(videosDir, path, now);
    var first := Read(frames, 0);
    if first.None? {
      return Aborted(Some(AttributeError));
    }
    s := WriteFrames(det, out, frames, total, v);
  }

  /** Once the writer is open: the label is set, the loop runs, and only a loop that ends
      by itself is followed by the clear, the completion text and the scheduled clear. */
  method WriteFrames(det: Option<DetectorConfig>, out: string, frames: seq<Frame>, total: int, v: Vision)
    returns (s: Session)
    ensures s == AfterOpen(det, out, frames, total, v)
  {
    var status := [VIDEO_BUSY];
    var detect := Bound(det, None, v);
    var written, error := ProcessFrames(detect, frames, total);
    if error.Some? {
      return Session(Some(out), written, status, [], error);
    }
    status := status + [""];
    status := status + [VIDEO_DONE];
    s := Session(Some(out), written, status, [CLEAR_DELAY_MS], None);
  }

  /** The body of `detect_over_image()` after `create_detector`, step by step. */
  method RunImage(det: Option<DetectorConfig>, path: string, image: Option<Frame>, now: Instant,
                  imagesDir: string, v: Vision)
    returns (s: Session)
    ensures s == ImageSession(det, path, image, now, imagesDir, v)
  {
    if path == [] {
      return Aborted(None);
    }
    if !IsImagePath(path) {
      return Aborted(Some(ValueError));
    }
    var status := [IMAGE_BUSY];
    var r := Invoke(det, image, None, v);
    if r.Err? {
      return Session(None, [], status, [], Some(r.error));
    }
    if r.value.None? {
      return Session(None, [], status, [], Some(CvError));
    }
    status := status + [IMAGE_DONE];
    s := Session(Some(ImageOutput(imagesDir, path, now)), [r.value], status, [CLEAR_DELAY_MS], None);
  }

  class PostProcessPanel {
    var faceDetector: Option<DetectorConfig>
    /** The texts `status_lbl` was set to, oldest first. */
    var statusLog: seq<string>
    /** The delays of the pending `after(..., clear_status_label)` calls. */
    var clears: seq<nat>

    constructor ()
      ensures faceDetector == None && statusLog == [] && clears == []
    {
      faceDetector := None;
      statusLog, clears := [], [];
    }

    /** `create_detector(staticMode_flag)`: the flag is ignored and the detector becomes
        whatever `parent.settings.haar_detector` holds; `haar` is that lookup, an
        `AttributeError` when the settings panel has no such attribute. */
    method CreateDetector(staticModeFlag: PyValue, haar: Result<Option<DetectorConfig>>) returns (error: Option<PyError>)
      modifies this
      ensures haar.Ok? ==> error.None? && faceDetector == haar.value
      ensures haar.Err? ==> error == Some(haar.error) && faceDetector == old(faceDetector)
      ensures statusLog == old(statusLog) && clears == old(clears)
    {
      if haar.Err? {
        return Some(haar.error);
      }
      faceDetector := haar.value;
      error := None;
    }

    /** `detect_over_video()`; the lookup, the dialog's answer, the decoded frames, the
        frame count the capture reports and the clock are passed in. */
    method DetectOverVideo(haar: Result<Option<DetectorConfig>>, path: string, frames: seq<Frame>, total: int,
                           now: Instant, videosDir: string, v: Vision)
      returns (s: Session)
      modifies this
      ensures haar.Err? ==> s == Aborted(Some(haar.error)) && faceDetector == old(faceDetector)
      ensures haar.Ok? ==> faceDetector == haar.value && s == VideoSession(haar.value, path, frames, total, now, videosDir, v)
      ensures statusLog == old(statusLog) + s.status && clears == old(clears) + s.clears
    {
      var failed := CreateDetector(PyBool(false), haar);
      if failed.Some? {
        return Aborted(failed);
      }
      s := RunVideo(faceDetector, path, frames, total, now, videosDir, v);
      statusLog, clears := statusLog + s.status, clears + s.clears;
    }

    /** `detect_over_image()`; the lookup, the dialog's answer and the decoded image (or
        `None`) are passed in. */
    method DetectOverImage(haar: Result<Option<DetectorConfig>>, path: string, image: Option<Frame>,
                           now: Instant, imagesDir: string, v: Vision)
      returns (s: Session)
      modifies this
      ensures haar.Err? ==> s == Aborted(Some(haar.error)) && faceDetector == old(faceDetector)
      ensures haar.Ok? ==> faceDetector == haar.value && s == ImageSession(haar.value, path, image, now, imagesDir, v)
      ensures statusLog == old(statusLog) + s.status && clears == old(clears) + s.clears
    {
      var failed := CreateDetector(PyBool(true), haar);
      if failed.Some? {
        return Aborted(failed);
      }
      s := RunImage(faceDetector, path, image, now, imagesDir, v);
      statusLog, clears := statusLog + s.status, clears + s.clears;
    }
  }
}
