/** The settings panel of the customtkinter application: two checkboxes fix `draw_box`
    and `draw_blur`, and the detector menu together with a static-mode flag chooses which
    detector object is built and with which positional arguments. */
module SettingsPanel {
  import opened PyValues
  import opened Detectors

  const DETECTOR_OPTIONS: seq<string> := ["Basic: Frontal Face Detector", "Advanced: Mesh Face Detector"]

  /** `flag is False`: only the boolean itself, not `None`, `0` or `''`. */
  predicate IsFalse(flag: PyValue) {
    flag == PyBool(false)
  }

  /** The detector `set_detector` leaves behind, from the previous one, the menu's text,
      the static-mode flag and the freshly read checkbox values. Each construction is the
      class's own positional binding. */
  function Selection(current: Option<DetectorConfig>, menu: string, flag: PyValue, drawBox: bool, drawBlur: bool): Option<DetectorConfig> {
    if menu == DETECTOR_OPTIONS[0] then
      Some(Construct(FrontalKind, [PyBool(drawBox), PyBool(drawBlur)]).value)
    else if menu == DETECTOR_OPTIONS[1] && Truthy(flag) then
      Some(Construct(MeshKind, [PyBool(drawBox), PyBool(drawBlur), PyBool(true)]).value)
    else if menu == DETECTOR_OPTIONS[1] && IsFalse(flag) then
      Some(Construct(MeshKind, [PyBool(drawBox), PyBool(drawBlur), PyBool(false)]).value)
    else current
  }

  /** The frontal option builds `FrontalFaceDetector(draw_box, draw_blur)` whatever the flag. */
  lemma FrontalIgnoresFlag(current: Option<DetectorConfig>, flag: PyValue, drawBox: bool, drawBlur: bool)
    ensures Selection(current, DETECTOR_OPTIONS[0], flag, drawBox, drawBlur) == Some(Frontal(PyBool(drawBox), PyBool(drawBlur)))
  {
  }

  /** The mesh constructor's third parameter is `draw_blur`, its fourth `staticMode`: the
      settings' blur checkbox lands in `show_info`, the static-mode flag lands in
      `draw_blur`, and `staticMode` keeps its default `False`. */
  lemma MeshMisbinding(current: Option<DetectorConfig>, flag: PyValue, drawBox: bool, drawBlur: bool)
    requires Truthy(flag) || IsFalse(flag)
    ensures var d := Selection(current, DETECTOR_OPTIONS[1], flag, drawBox, drawBlur);
      && d.Some? && d.value.Mesh?
      && d.value.drawBox == PyBool(drawBox)
      && d.value.showInfo == PyBool(drawBlur)
      && d.value.drawBlur == PyBool(Truthy(flag))
      && d.value.staticMode == PyBool(false)
  {
  }

  /** The detector is replaced only by the two menu entries, and the mesh entry only for a
      truthy flag or `False` itself; `None` in particular keeps the previous detector. */
  lemma SelectionKeepsDetector(current: Option<DetectorConfig>, menu: string, flag: PyValue, drawBox: bool, drawBlur: bool)
    ensures Selection(current, menu, flag, drawBox, drawBlur) == current
            <== menu !in DETECTOR_OPTIONS || (menu == DETECTOR_OPTIONS[1] && !Truthy(flag) && !IsFalse(flag))
    ensures Selection(current, menu, flag, drawBox, drawBlur) != current ==> menu in DETECTOR_OPTIONS
  {
  }

  class Settings {
    var drawBox: bool
    var drawFeedInfo: bool
    var drawBlur: bool
    var faceDetector: Option<DetectorConfig>

    /** The defaults: outlines on, feed info and blur off, no detector yet. */
    constructor ()
      ensures drawBox && !drawFeedInfo && !drawBlur && faceDetector == None
    {
      drawBox, drawFeedInfo, drawBlur := true, false, false;
      faceDetector := None;
    }

    /** `set_draw_box()`, with `bbox_cb.get()` as `state`. */
    method SetDrawBox(state: int)
      modifies this
      ensures drawBox == (state == 1)
      ensures drawFeedInfo == old(drawFeedInfo) && drawBlur == old(drawBlur) && faceDetector == old(faceDetector)
    {
      drawBox := state == 1;
    }

    /** `set_draw_blur()`, with `blur_cb.get()` as `state`. */
    method SetDrawBlur(state: int)
      modifies this
      ensures drawBlur == (state == 1)
      ensures drawBox == old(drawBox) && drawFeedInfo == old(drawFeedInfo) && faceDetector == old(faceDetector)
    {
      drawBlur := state == 1;
    }

    /** `set_detector(staticMode_flag)`: both checkboxes are read again first, then the
        menu's text picks the detector. No constructor call here can raise. */
    method SetDetector(menu: string, flag: PyValue, bboxState: int, blurState: int)
      modifies this
      ensures drawBox == (bboxState == 1) && drawBlur == (blurState == 1)
      ensures drawFeedInfo == old(drawFeedInfo)
      ensures faceDetector == Selection(old(faceDetector), menu, flag, drawBox, drawBlur)
    {
      SetDrawBox(bboxState);
      SetDrawBlur(blurState);
      if menu == DETECTOR_OPTIONS[0] {
        var built := Construct(FrontalKind, [PyBool(drawBox), PyBool(drawBlur)]);
        faceDetector := Some(built.value);
      } else if menu == DETECTOR_OPTIONS[1] {
        if Truthy(flag) {
          var built := Construct(MeshKind, [PyBool(drawBox), PyBool(drawBlur), PyBool(true)]);
          faceDetector := Some(built.value);
        } else if IsFalse(flag) {
          var built := Construct(MeshKind, [PyBool(drawBox), PyBool(drawBlur), PyBool(false)]);
          faceDetector := Some(built.value);
        }
      }
    }
  }
}
