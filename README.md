# Face detection core in Dafny

A model of the logic inside the "Custom Face Detection Software" desktop tools, with
proofs about it. The tools run a face detector over a webcam feed, a video file or an
image, and annotate each face in place.

- The Haar-cascade detector takes `(x, y, w, h)` boxes.
- The MediaPipe FaceMesh detector derives a box from landmark extrema.
- Each face region of the frame can be blurred, outlined, or both.
- The mesh detector can also paint an information panel.

Around the detectors, the model covers the GUI code that:

- validates the chosen file's extension;
- names the output after the input and the current time;
- maps checkbox and menu values to the detector that gets constructed;
- drives the frame loops, deciding which frames are written, in what order, and which
  status texts are shown.

## Modules

| file | module | what it holds |
|---|---|---|
| `python.dfy` | `PyValues` | Python values (`None`, bools, ints, strings); truthiness versus `is True`; `str()`, `str.lower`, `str.endswith`; the exceptions raised |
| `timestamps.dfy` | `Timestamps` | the three `strftime` renderings and a parser proving the file-name stamp loses nothing |
| `imaging.dfy` | `Imaging` | frames as 2-D pixel arrays; numpy slices; the blur write-back (`frame[a:b, c:d] = cv2.blur(...)`) and drawing calls, both as values and as in-place array methods |
| `vision.dfy` | `Vision` | the OpenCV and MediaPipe calls, as function values |
| `frontal.dfy` | `FrontalDetection` | `FrontalFaceDetector`: `draw_rectangle`, `detect_faces` |
| `mesh.dfy` | `MeshDetection` | `FaceMeshDetector`: the extrema scan, `draw_rectangle`, `draw_info`, `detect_faces` |
| `detectors.dfy` | `Detectors` | the two constructors' positional binding, and a `detect_faces` call with or without the time argument |
| `capture.dfy` | `Capture` | `cap.read()` over a decoded frame sequence; the outcome of one handler run |
| `mediafiles.dfy` | `MediaFiles` | extension checks, `os.path.basename` and `os.path.join`, the output and recording names |
| `settings.dfy` | `SettingsPanel` | `settings_frame.Settings`: checkboxes and detector selection |
| `gui_basic.dfy` | `GuiBasic` | `gui_basic.GUI`: option setters, `detect_over_video` (the `while ret` loop), `detect_over_image` |
| `post_processing.dfy` | `PostProcessing` | `PostProcessDetections`: `create_detector`, `detect_over_video` (the `total_frames` loop), `detect_over_image`, the status label |

### Modelling choices

**Frames and pixel operations.**
- Each in-place operation is a method over an `array2<Pixel>`.
- Each method's `ensures` says the array afterwards holds a pure function of what it held before.
- The properties are proved about those functions: `BlurInPlace`, `Paint`, `FaceEffect`, `DetectionEffect`, `FacesEffect`, `Detections`, `MeshDetect` and `FrontalDetect`.

**Foreign calls.** The model does not look inside `cv2.blur`, the rasteriser, the cascade, the colour conversion or FaceMesh. Each one is a function value in `Vision`.

**Python values.**
- Python's dynamic flags are `PyValue`s.
- A constructor call is `Construct`, which binds positional arguments and raises `TypeError` on a wrong count.
- A method call with the wrong number of arguments also gives a `TypeError` (`Invoke`).

**Handlers.**
- Each GUI handler has two parts.
- A method follows the handler's statements.
- A function (`VideoSession`, `ImageSession`) gives the whole outcome: the output path, the frames written, the status texts, the delays of the scheduled clears, and the exception caught.

### Where the code behaves differently from its design

The model follows the code as written.

- **Effects are independent.** Blur and outline are separate flags, not one exclusive effect. When both are on, the blur is written first and the outline drawn over it (`OutlineOverBlur`, `BlurThenOutline`).
- **Frontal flags require the boolean `True`.** The frontal detector tests `is True`, so a truthy value such as `'Blur'` or `1` enables nothing. The mesh detector tests truthiness. Its panel again needs `show_info is True`.
- **The panel has a fixed size.** It is `(0, 0)-(195, 80)`, not a size proportional to the frame.
- **No exception reaches the caller.** Each handler catches and prints everything.
  - Inside a detector, an exception ends only that call, and the frame is still written.
  - A `detect_faces` call with the wrong arguments raises out of the loop and ends the run.
- **gui_basic cannot build a mesh detector.** `set_detector_option` passes two arguments to `FaceMeshDetector`, which needs three. The `TypeError` is caught and the previous detector is kept. This app therefore only ever holds a frontal detector.
- **gui_basic passes a time the frontal detector cannot take.** Both of its handlers call `detect_faces(frame, current_time)`, but the frontal detector takes no time argument.
  - Every valid video that decodes a first frame ends in `TypeError` at that frame, and nothing is written.
  - The same holds for every image.
- **The post-processing panel has the opposite mismatch.** Its handlers call `detect_faces(frame)` without a time.
  - A mesh detector raises `TypeError` at once.
  - A frontal detector writes exactly `total_frames` frames.
  - The frames written are decoded frames 1 to `total_frames`, since the first frame is read only for its size. Past the end of the file the value written is `None`.
- **`create_detector` ignores its flag.** It reads `parent.settings.haar_detector`, an attribute the settings class never defines. That lookup is the parameter `haar`, which may be an `AttributeError`.
- **The settings panel binds the mesh detector's arguments in the wrong slots.** `FaceMeshDetector(draw_box, draw_blur, flag)` binds positionally to `(draw_box, show_info, draw_blur)`:
  - the blur checkbox becomes `show_info`;
  - the static-mode flag becomes `draw_blur`;
  - `staticMode` stays `False`.
- **With blur on, a box with no area is skipped.** `cv2.blur` raises on an empty patch, and the exception is swallowed. That face keeps its pixels and gets no outline. With blur off, the outline is still drawn.

## Model

| member | source | states |
|---|---|---|
| PyValues.IsTrueIsTruthy | face_detection_package/frontal_face_detector.py:92-100 | `is True` implies truthiness but not the other way: `'Blur'` and `1` are truthy and not `True` |
| PyValues.NatToStringRoundTrip | face_detection_package/mesh_face_detector.py:84 | reading the decimal rendering of a count back gives the count |
| PyValues.NatToStringInjective | face_detection_package/mesh_face_detector.py:84 | different counts render to different texts |
| PyValues.IntToStringInjective | face_detection_package/gui_basic.py:350 | different channel numbers render to different texts, negative ones included |
| PyValues.Lower | face_detection_package/gui_basic.py:382 | `lower()` keeps the length and maps each character on its own |
| Timestamps.Stamp | face_detection_package/gui_basic.py:376-377 | the `%Y%m%d_%H%M%S` stamp has 15 characters, `_` at position 8 and digits everywhere else |
| Timestamps.StampRoundTrip | face_detection_package/gui_basic.py:377 | parsing the stamp gives back the instant it was made from |
| Timestamps.StampInjective | face_detection_package/post_processing_frame.py:128-129 | distinct instants give distinct stamps |
| Timestamps.DateText | face_detection_package/mesh_face_detector.py:141 | `%d %b %Y` is 11 characters: a day and a four-digit year that read back as the instant's, around the month abbreviation |
| Timestamps.TimeText | face_detection_package/mesh_face_detector.py:142 | `%H:%M:%S` is 8 characters whose three fields read back as the hour, minute and second |
| Imaging.Slice | face_detection_package/mesh_face_detector.py:131 | a numpy slice `lo:hi` on an axis of length `n` selects exactly the indices `lo <= i < hi` with `i < n`, and stays inside the axis |
| Imaging.Region | face_detection_package/mesh_face_detector.py:131 | `frame[rows, cols]` is the sub-image whose pixel `(i, j)` is the frame's pixel at the slices' offset |
| Imaging.WriteBack | face_detection_package/mesh_face_detector.py:133 | `frame[rows, cols] = patch` changes the pixels under the slices to the patch's and keeps every other pixel |
| Imaging.BlurInPlace | face_detection_package/mesh_face_detector.py:131-133 | blurring a region fails exactly when the region is empty; otherwise the shape is kept, pixels outside the region are unchanged, and pixels inside take the blurred patch's value |
| Imaging.BlurAt | face_detection_package/frontal_face_detector.py:97-99 | a pixel inside the region takes the blurred patch's value at its offset from the region's corner |
| Imaging.Paint | face_detection_package/mesh_face_detector.py:135 | a drawing call sets the pixels it paints to their colour and keeps all others |
| Imaging.PaintAllKeeps | face_detection_package/mesh_face_detector.py:146-152 | a pixel that no call in a sequence of drawing calls paints keeps its value through all of them |
| Imaging.WritePatch | face_detection_package/frontal_face_detector.py:99 | the in-place slice assignment leaves the array holding exactly `WriteBack` of its old contents |
| Imaging.BlurWriteBack | face_detection_package/mesh_face_detector.py:131-133 | in place: succeeds iff the region is non-empty, then leaves the array holding `BlurInPlace` of its old contents; otherwise touches nothing |
| Imaging.Draw | face_detection_package/mesh_face_detector.py:135 | in place, one drawing call leaves the array holding `Paint` of its old contents |
| Imaging.DrawAll | face_detection_package/mesh_face_detector.py:146-152 | in place, a list of drawing calls is applied in order |
| MeshDetection.ScanExtrema | face_detection_package/mesh_face_detector.py:107-119 | every landmark lies inside the scanned bounds; each bound is its sentinel or attained by a landmark, so `x_min = min(iw, min xs)` and likewise for the others; no landmark leaves the inverted box `(iw, 0, ih, 0)` |
| MeshDetection.ScanBounds | face_detection_package/mesh_face_detector.py:107-119 | the loop's four variables end at the scan's bounds |
| MeshDetection.BoxRows | face_detection_package/mesh_face_detector.py:131 | `frame[y_min:y_max]` selects exactly the rows `y_min <= r < y_max` inside the frame |
| MeshDetection.BoxCols | face_detection_package/mesh_face_detector.py:131 | `frame[:, x_min:x_max]` selects exactly the columns `x_min <= c < x_max` inside the frame |
| MeshDetection.BoxOutline | face_detection_package/mesh_face_detector.py:135 | the outline goes from `(x_min, y_min)` to `(x_max, y_max)`, colour `(0, 0, 255)`, thickness 2 |
| MeshDetection.FaceEffectGating | face_detection_package/mesh_face_detector.py:128-135 | both flags falsy: frame unchanged; outline alone: exactly the outline painted; blur on a face without landmarks: frame unchanged |
| MeshDetection.BlurOnlyInBox | face_detection_package/mesh_face_detector.py:128-133 | without the outline, no pixel outside the face's box changes |
| MeshDetection.BlurFillsBox | face_detection_package/mesh_face_detector.py:128-133 | with blur alone, each pixel in the box takes the blurred patch's value at its offset from `(x_min, y_min)` |
| MeshDetection.BlurAloneIsBlurInPlace | face_detection_package/mesh_face_detector.py:128-133 | with blur alone and a non-empty box, the face's effect is the blur write-back on the box |
| MeshDetection.OutlineOverBlur | face_detection_package/mesh_face_detector.py:128-135 | with both flags and a non-empty box, the outline is painted over the blurred frame |
| MeshDetection.FacesEffectSnoc | face_detection_package/mesh_face_detector.py:80-82 | handling one more face applies `draw_rectangle` to it after all earlier faces |
| MeshDetection.NoEffectKeepsFrame | face_detection_package/mesh_face_detector.py:79-82 | with both flags falsy, no number of faces changes the frame |
| MeshDetection.BlurStaysInBoxes | face_detection_package/mesh_face_detector.py:79-82 | without the outline, a pixel in no face's box keeps its value through all faces |
| MeshDetection.CountText | face_detection_package/mesh_face_detector.py:84 | the count text starts with `Faces: ` and the rest reads back as the number of faces |
| MeshDetection.EffectText | face_detection_package/mesh_face_detector.py:85 | the effect text is `blur: ` followed by `str(draw_blur)` |
| MeshDetection.InfoLayout | face_detection_package/mesh_face_detector.py:146-152 | the panel is a filled black `(0, 0)-(195, 80)` box drawn first, then six text lines at `y = 20, 30, ..., 70`, each starting inside it: name, effect, count, separator, date, time |
| MeshDetection.InfoEffect | face_detection_package/mesh_face_detector.py:140 | the panel leaves the frame untouched unless `show_info is True` |
| MeshDetection.InfoKeepsUnpainted | face_detection_package/mesh_face_detector.py:145-152 | with the panel on, a pixel that none of its seven drawing calls paints keeps its value |
| MeshDetection.MeshDetect | face_detection_package/mesh_face_detector.py:79 | with no face found the frame is unchanged, and its shape is always kept |
| MeshDetection.MeshNothingEnabled | face_detection_package/mesh_face_detector.py:79-86 | both flags falsy and the panel off: detection changes nothing |
| MeshDetection.PanelOverBoxes | face_detection_package/mesh_face_detector.py:79-86 | with faces found and the panel on, the panel is painted after every face's box, with the count and blur texts |
| MeshDetection.FaceMeshDetector.constructor | face_detection_package/mesh_face_detector.py:28-60 | the flags are stored, the FaceMesh options carry `staticMode` and the tuning arguments, `results` and `imgRGB` start as `None` |
| MeshDetection.FaceMeshDetector.DrawRectangle | face_detection_package/mesh_face_detector.py:93-137 | in place: the scan, then the blur write-back, then the outline, gives `FaceEffect` of the old frame; an empty patch skips the rest |
| MeshDetection.FaceMeshDetector.DrawInfo | face_detection_package/mesh_face_detector.py:139-154 | in place: the panel's seven drawing calls when `show_info is True`, nothing otherwise |
| MeshDetection.FaceMeshDetector.DrawFaces | face_detection_package/mesh_face_detector.py:80-82 | in place: each face in MediaPipe's order, once |
| MeshDetection.FaceMeshDetector.DetectFaces | face_detection_package/mesh_face_detector.py:62-91 | `imgRGB` and `results` hold the conversion and the landmarks of the incoming frame, and the frame becomes `MeshDetect` of it |
| FrontalDetection.RowsOf | face_detection_package/frontal_face_detector.py:94-97 | `frame[y:y2]` with `y2 = y + h` selects exactly the rows `y <= r < y + h` inside the frame |
| FrontalDetection.ColsOf | face_detection_package/frontal_face_detector.py:94-97 | `frame[:, x:x2]` with `x2 = x + w` selects exactly the columns `x <= c < x + w` inside the frame |
| FrontalDetection.Outline | face_detection_package/frontal_face_detector.py:100-102 | the outline's corners are `(x, y)` and `(x + w, y + h)`, colour `(0, 0, 255)`, thickness 2 |
| FrontalDetection.DetectionGating | face_detection_package/frontal_face_detector.py:92-102 | neither flag `True`: frame unchanged; outline alone: exactly the outline; blur on an empty region: frame unchanged |
| FrontalDetection.BlurOnlyInRegion | face_detection_package/frontal_face_detector.py:92-99 | without the outline, no pixel outside the detection changes |
| FrontalDetection.BlurFillsRegion | face_detection_package/frontal_face_detector.py:92-99 | with blur alone, each pixel under the detection takes the blurred patch's value at its offset from `(x, y)` |
| FrontalDetection.BlurThenOutline | face_detection_package/frontal_face_detector.py:92-102 | with both flags and a non-empty region, the outline is painted over the blurred frame |
| FrontalDetection.DetectionsSnoc | face_detection_package/frontal_face_detector.py:82-84 | one more detection applies `draw_rectangle` to it after all earlier ones |
| FrontalDetection.FrontalDetect | face_detection_package/frontal_face_detector.py:76-84 | with no detection the frame is unchanged, and its shape is always kept |
| FrontalDetection.NothingEnabledKeepsFrame | face_detection_package/frontal_face_detector.py:82-84 | with neither flag `True`, no number of detections changes the frame |
| FrontalDetection.BlurStaysInDetections | face_detection_package/frontal_face_detector.py:82-84 | without the outline, a pixel under no detection keeps its value through all detections |
| FrontalDetection.FrontalFaceDetector.constructor | face_detection_package/frontal_face_detector.py:47-62 | the two flags are stored as given, with the version name |
| FrontalDetection.FrontalFaceDetector.DrawRectangle | face_detection_package/frontal_face_detector.py:89-104 | in place: blur write-back then outline gives `DetectionEffect` of the old frame |
| FrontalDetection.FrontalFaceDetector.DetectFaces | face_detection_package/frontal_face_detector.py:64-87 | in place: the frame becomes `FrontalDetect` of it, every cascade detection handled in the classifier's order |
| Detectors.Construct | face_detection_package/mesh_face_detector.py:28-29 | the frontal constructor accepts exactly two arguments, the mesh one three to eight, binding them in order: `draw_box`, `show_info`, `draw_blur`, then `staticMode` (default `False`), then the tuning arguments; any other count is a `TypeError` |
| Detectors.Invoke | face_detection_package/frontal_face_detector.py:64-87 | no detector: `AttributeError`; a frontal detector succeeds iff no time is passed, a mesh one iff a time is passed; a successful call on a frame returns `FrontalDetect` of it (frontal) or `MeshDetect` of it with the bound flags, options and time (mesh), and a `None` frame stays `None` |
| Capture.Read | face_detection_package/gui_basic.py:392 | the `k`-th read returns the `k`-th decoded frame, or nothing past the end |
| GuiBasic.OptionChoiceCases | face_detection_package/gui_basic.py:165-172 | option 0 builds `FrontalFaceDetector(effect, draw_feed_info)`; any other selection, the mesh one included, keeps the detector |
| GuiBasic.WhileRetWritesInOrder | face_detection_package/gui_basic.py:400-405 | one frame written per frame read, in read order, each the detector's result on it; the run ends at the end of the file or at the first exception, with that frame not written |
| GuiBasic.FrontalRaisesAtFirstFrame | face_detection_package/gui_basic.py:401 | a frontal detector called with a time raises `TypeError` at the first frame, before anything is written |
| GuiBasic.VideoSessionOutcomes | face_detection_package/gui_basic.py:375-418 | an empty path does nothing and a wrong extension is a `ValueError` with nothing opened; for a chosen path, status texts appear iff no exception was caught, and they are then `""` and the completion text, with one 5000 ms clear, every frame written to the video output |
| GuiBasic.ImageSessionOutcomes | face_detection_package/gui_basic.py:427-453 | a wrong extension is a `ValueError`; for a chosen path the completion text appears iff no exception was caught, and then exactly the detector's frame is written to the image output |
| GuiBasic.FrontalVideoNeverWrites | face_detection_package/gui_basic.py:400-405 | with the frontal detector the app holds, no video frame is ever written, and a valid video that decodes a frame ends in `TypeError` |
| GuiBasic.FrontalImageNeverWrites | face_detection_package/gui_basic.py:444-445 | with the frontal detector no image is ever written, and a valid image ends in `TypeError` |
| GuiBasic.ProcessVideo | face_detection_package/gui_basic.py:392-405 | the read-detect-write loop produces exactly `WhileRet`'s frames and exception |
| GuiBasic.RunVideo | face_detection_package/gui_basic.py:375-418 | the handler's statements produce exactly `VideoSession` |
| GuiBasic.WriteFrames | face_detection_package/gui_basic.py:400-416 | after the writer opens: the loop, then the clear, the completion text and the scheduled clear, only when the loop ends by itself |
| GuiBasic.RunImage | face_detection_package/gui_basic.py:427-453 | the handler's statements produce exactly `ImageSession` |
| GuiBasic.BasicApp.constructor | face_detection_package/gui_basic.py:80-83 | `effect = None`, `draw_feed_info = True`, and a frontal detector built from those two |
| GuiBasic.BasicApp.SetDrawInfo | face_detection_package/gui_basic.py:138-142 | 1 sets `True`, 0 sets `False`, any other state keeps the flag; nothing else changes |
| GuiBasic.BasicApp.SetEffectOption | face_detection_package/gui_basic.py:144-152 | the two menu entries set the effect to `'None'` or `'Blur'`; anything else keeps it |
| GuiBasic.BasicApp.SetDetectorOption | face_detection_package/gui_basic.py:154-176 | the effect and feed-info flag are refreshed first and stay refreshed; the detector becomes `OptionChoice` of them, so it is always a frontal one |
| GuiBasic.BasicApp.DetectOverVideo | face_detection_package/gui_basic.py:368-418 | the run is `VideoSession` of the held detector; its status texts and clears are appended to the label's history; no setting changes |
| GuiBasic.BasicApp.DetectOverImage | face_detection_package/gui_basic.py:420-453 | the run is `ImageSession` of the held detector, with the history appended likewise |
| MediaFiles.VideoAcceptance | face_detection_package/gui_basic.py:381-383 | a video is accepted iff its last four characters, lower-cased, are `.mp4` or `.mov` |
| MediaFiles.ImageAcceptance | face_detection_package/gui_basic.py:433-435 | an image is accepted iff its last four characters, lower-cased, are `.png` or `.jpg` |
| MediaFiles.ExtensionCaseInsensitive | face_detection_package/post_processing_frame.py:132-134 | a path and its lower-cased form are accepted alike |
| MediaFiles.JpegRejected | face_detection_package/post_processing_frame.py:189-191 | `.jpeg` is rejected, while `.JPG` and `.MOV` are accepted |
| MediaFiles.Basename | face_detection_package/post_processing_frame.py:137 | the basename is the longest suffix of the path without a `/` |
| MediaFiles.Join | face_detection_package/post_processing_frame.py:136 | the joined path is the directory followed by the name, with a `/` between them exactly when the directory is non-empty and does not already end in one |
| MediaFiles.BasenameOfJoin | face_detection_package/gui_basic.py:386-387 | joining a bare name to a directory keeps it as the basename |
| MediaFiles.OutputNameParts | face_detection_package/post_processing_frame.py:136-137 | the output name starts with the basename, holds a stamp parsing back to the instant right after it and the next character, and ends with the extension; its length is basename + 27 + extension |
| MediaFiles.OutputNameSeparators | face_detection_package/post_processing_frame.py:136-137 | the character after the basename is `_`, and the 11 characters after the stamp are `_detections`, so with `OutputNameParts` every position of the name is fixed |
| MediaFiles.OutputNameInjective | face_detection_package/post_processing_frame.py:193-194 | equal output names mean equal basenames and equal instants |
| MediaFiles.OutputNameHasNoSlash | face_detection_package/gui_basic.py:438-439 | the output name contains no separator |
| MediaFiles.OutputInDirectory | face_detection_package/gui_basic.py:438-439 | the output path is the directory, then a `/` or nothing, then the output name, which is its basename |
| MediaFiles.RecordingNameParts | face_detection_package/gui_basic.py:350 | the recording name is the stamp parsing back to the instant, `_`, the channel, then `_webcam_recording.mp4` |
| MediaFiles.RecordingNameInjective | face_detection_package/gui_basic.py:350 | equal recording names mean equal instants and equal channels |
| PostProcessing.ForFramesWritesEach | face_detection_package/post_processing_frame.py:151-154 | one write per iteration, `max(total_frames, 0)` in all unless an exception ends the loop; write `j` is the detector's result on decoded frame `j + 1`, so the first frame is never written |
| PostProcessing.FrontalWritesTotal | face_detection_package/post_processing_frame.py:145-154 | a frontal detector writes exactly `total_frames` frames: decoded frames 1 to `total_frames`, with `None` past the end of the file |
| PostProcessing.NoErrorWritesAll | face_detection_package/post_processing_frame.py:151-154 | a detector call that never raises lets the loop finish |
| PostProcessing.MeshRaisesAtOnce | face_detection_package/post_processing_frame.py:153 | a mesh detector called without a time raises `TypeError` at the first iteration, before anything is written |
| PostProcessing.VideoStatusSequence | face_detection_package/post_processing_frame.py:126-170 | a wrong extension is a `ValueError`; the writer opens iff the path is valid and a first frame was decoded; on success the label goes "Processing video...", "", "Video detections processed", with one 5000 ms clear and `total_frames` frames written; after a failure it stays at "Processing video..." |
| PostProcessing.ImageStatusSequence | face_detection_package/post_processing_frame.py:183-212 | no exception iff the path is valid, the image decoded and the call succeeded; then the label goes "Processing image...", "Image detections processed" and only the detector's frame is written |
| PostProcessing.ProcessFrames | face_detection_package/post_processing_frame.py:151-154 | the `range(total_frames)` loop produces exactly `ForFrames`'s frames and exception |
| PostProcessing.RunVideo | face_detection_package/post_processing_frame.py:130-164 | the handler's statements after `create_detector` produce exactly `VideoSession` |
| PostProcessing.WriteFrames | face_detection_package/post_processing_frame.py:145-164 | after the writer opens: the busy text, the loop, then the clear, the completion text and the scheduled clear, only when the loop ends by itself |
| PostProcessing.RunImage | face_detection_package/post_processing_frame.py:187-208 | the handler's statements after `create_detector` produce exactly `ImageSession` |
| PostProcessing.PostProcessPanel.constructor | face_detection_package/post_processing_frame.py:67 | the panel starts without a detector and with an empty label history |
| PostProcessing.PostProcessPanel.CreateDetector | face_detection_package/post_processing_frame.py:73-86 | the flag is ignored; the detector becomes the settings' `haar_detector`, or the lookup's exception is returned and the detector is kept |
| PostProcessing.PostProcessPanel.DetectOverVideo | face_detection_package/post_processing_frame.py:114-170 | a failed lookup ends the run with nothing done; otherwise the run is `VideoSession` of the looked-up detector, and the label's history grows by its texts |
| PostProcessing.PostProcessPanel.DetectOverImage | face_detection_package/post_processing_frame.py:172-212 | likewise for `ImageSession` |
| SettingsPanel.FrontalIgnoresFlag | face_detection_package/settings_frame.py:147-150 | option 0 builds `FrontalFaceDetector(draw_box, draw_blur)` whatever the flag |
| SettingsPanel.MeshMisbinding | face_detection_package/settings_frame.py:151-160 | option 1 with a truthy or `False` flag builds a mesh detector whose `show_info` is the blur checkbox, whose `draw_blur` is the flag's truth, and whose `staticMode` is `False` |
| SettingsPanel.SelectionKeepsDetector | face_detection_package/settings_frame.py:147-160 | an unknown menu value, or option 1 with a flag neither truthy nor `False` (such as `None`), keeps the detector; any change comes from a menu entry |
| SettingsPanel.Settings.constructor | face_detection_package/settings_frame.py:74-77 | `draw_box = True`, `draw_feed_info = False`, `draw_blur = False`, no detector |
| SettingsPanel.Settings.SetDrawBox | face_detection_package/settings_frame.py:103-104 | `draw_box` becomes `state == 1`; nothing else changes |
| SettingsPanel.Settings.SetDrawBlur | face_detection_package/settings_frame.py:122-123 | `draw_blur` becomes `state == 1`; nothing else changes |
| SettingsPanel.Settings.SetDetector | face_detection_package/settings_frame.py:134-165 | both checkboxes are read first; the detector becomes `Selection` of the refreshed values |

## Left out

- OpenCV and MediaPipe internals are function values in `Vision`, because they are foreign code. This covers the cascade classifier, `cv2.blur`'s kernel arithmetic, rasterising `cv2.rectangle` and `cv2.putText`, colour conversion, and the FaceMesh model.
  - Blur is pixel by pixel over the patch.
  - Drawing is a per-pixel colour, or none.
- MediaPipe's tracking state between frames is not modelled. FaceMesh is a pure function of its options and the frame.
- Landmarks arrive as non-negative pixel coordinates.
  - The float projection `int(lm.x * iw)` is not modelled.
  - Neither is a landmark left of or above the frame, which would make numpy read a negative slice bound from the end.
  - Bounds past the right or bottom edge are clamped as numpy does.
- The live webcam loops (gui_basic.py:322-366 and the realtime panel) are not modelled. They are interactive: they run until a key press and show frames with `imshow`. Only the recording's file name is modelled. Its directory attribute no longer exists.
- The GUI layout, widgets and file dialogs are outside the model, and so are `os.startfile` and directory creation.
  - The dialog's answer is a parameter; an empty string means the dialog was cancelled.
  - The output directories are parameters.
- `datetime.now()` is an `Instant` parameter.
- Each Tk `after` call records only its delay; the clear it schedules is not run.
- `self.update()` repaints and `print` calls are left out, because they have no effect on the modelled state.
- `str.lower` maps only ASCII letters, and paths use POSIX `/` separators only. Both keep the string model small.
- Years before 1000 are outside `Instant`. `%Y` does not zero-pad them on every platform.
- `cv2.VideoCapture`, `cv2.VideoWriter` and `cv2.imread` are reduced to what the handlers observe.
  - A capture is its sequence of decoded frames.
  - `CAP_PROP_FRAME_COUNT` is the parameter `total`.
  - Writes are the sequence of values passed to `out.write`; a `None` frame is recorded as written.
  - The writer's codec, frame rate and size are not modelled.
  - Failures to open a writer or to write a file are not modelled, and neither are the `release` calls.
  - A writer left open when an exception leaves the loop is not modelled.
- `cv2.imwrite` of `None` is the only image write that fails (`CvError`).
- The mesh detector's tuning arguments are kept as given. Their defaults (`maxFaces=10`, etc.) are not filled in. The constructor's float arguments never reach modelled code.
- MeshDetection.FaceMeshDetector.DetectFaces: takes a frame that exists. A `None` frame, where `cvtColor` raises inside the method, is handled by `Detectors.Invoke`.
- Class methods give `draw_rectangle` an in-place pixel array, with no aliasing between frames. The GUI functions pass frames as values.
- The frontal detector's unused `FONT`, `TEXT_COLOR` and `SCALE` constants are not modelled.
- `setting_frame.py` (an older settings panel) is not part of this model.
