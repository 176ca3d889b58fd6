/** What the post-processing code sees of OpenCV's video capture and writers: a capture
    is the sequence of frames a file decodes to, read one at a time; the outcome of a run
    is what was written and which exception, if any, ended it. */
module Capture {
  import opened PyValues
  import opened Imaging

  /** `cap.read()` for the `k`-th time: the `k`-th decoded frame, or `None` (with
      `ret == False`) once the file is exhausted. */
  function Read(frames: seq<Frame>, k: nat): (r: Option<Frame>)
    ensures r.Some? <==> k < |frames|
    ensures r.Some? ==> r.value == frames[k]
  {
    if k < |frames| then Some(frames[k]) else None
  }

  /** A bound `self.face_detector.detect_faces` call as a loop sees it: what the frame is
      after the call, or the exception the call raised. */
  type DetectCall = Option<Frame> -> Result<Option<Frame>>

  /** The frames handed to `out.write`, in order, and the exception that left the loop. */
  datatype Outcome = Outcome(written: seq<Option<Frame>>, error: Option<PyError>)

  /** One more frame written in front of what the rest of the loop produces. */
  function Then(g: Option<Frame>, rest: Outcome): Outcome {
    Outcome([g] + rest.written, rest.error)
  }

  /** What one press of a "Detect Over ..." button leaves behind: the output path a writer
      was opened on (or `imwrite` wrote to), the frames written, the texts the status label
      was set to in order, the delays of the `after` calls scheduled to clear it, and the
      exception the handler caught and printed. Nothing propagates to the caller. */
  datatype Session = Session(output: Option<string>, written: seq<Option<Frame>>,
                             status: seq<string>, clears: seq<nat>, error: Option<PyError>)

  /** A run that did nothing visible, ended by `error`. */
  function Aborted(error: Option<PyError>): Session {
    Session(None, [], [], [], error)
  }

  const CLEAR_DELAY_MS := 5000
}
