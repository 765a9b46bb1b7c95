# Face emotion detector: session control model

A Dafny model of the control logic of the real-time face emotion detector
(`FED_Code.py`). The application shows webcam video. It hands each frame to a
face-emotion analysis library and draws a box and labels for every face. It
rebuilds a panel of per-face cards, and it can speak the first face's emotion
aloud. Everything it does on top of those libraries is decided by a few
module globals and the handlers that change them. These are the parts modelled here:

- **Camera control** (`App.Session`): start, stop and switch the camera. Starting while
  running does nothing. A camera that fails to open leaves the session stopped.
  Stopping always clears the running flag and the card panel and releases the
  device, if there is one.
- **Camera cycling** (`CameraCycle`): the next entry of the camera list,
  wrapping around, or the first entry when the current index is not in the list.
- **Result normalisation** (`Detection`): a single result or a list of results
  becomes one overlay and one card per face. Missing keys get defaults, the box
  is clamped to non-negative values, label anchors are computed from the box,
  and the thumbnail is the crop of the 1280 x 720 frame or a blank image.
- **Speech rate limiter** (`Speech`): a two-field state machine that announces
  the first face's emotion on a change of label or after the 1.5 s cooldown.
- **Card panel** (`Cards`): rebuilt on every frame. It shows exactly one
  placeholder when there are no faces, otherwise one card per face.
- **Presentation toggles**: the theme and the fullscreen flag.

The environment supplies the outcomes of the external calls:

- `deviceOpens` is whether the new capture handle reports itself open.
- `Detection.Analysis` is what the analysis call returned: a dict, a list, or
  an exception.
- Each `App.FrameStep` of the capture loop is one pass: the read failed, or a
  frame was read and analysed at a given time with the speech toggle in a given state.

Time is an integer number of milliseconds, and the cooldown is 1500. Ghost
fields count device opens and releases and record the utterances handed to
the speech engine.

## Model

| member | source | states |
|---|---|---|
| `CameraCycle.IndexFromFirst` | FED_Code.py:161-165 | a search from a position finds x exactly when x occurs at or after it, and then at the first such occurrence |
| `CameraCycle.IndexOfFirst` | FED_Code.py:161-165 | about `IndexOf`: `list.index` finds x exactly when x is in the list, and then at its first occurrence; otherwise it is the ValueError case |
| `CameraCycle.Succ` | FED_Code.py:163 | `(idx + 1) % len` is the next position, or 0 after the last one |
| `CameraCycle.NextCamera` | FED_Code.py:161-166 | the camera chosen by a switch is always an entry of the camera list |
| `CameraCycle.NextCameraAfter` | FED_Code.py:161-166 | an index whose first occurrence is at position i is followed by the entry at i + 1, and the last entry by the first |
| `CameraCycle.NextCameraOutside` | FED_Code.py:164-166 | an index that is not in the list is replaced by the first entry |
| `CameraCycle.DistinctNext` | FED_Code.py:161-166 | with distinct entries, a switch from position i reaches the entry at i + 1, or the first entry from the last one |
| `CameraCycle.SwitchedTwice` | FED_Code.py:158-166 | switching a + b times is switching a times and then b times |
| `CameraCycle.SwitchedFrom` | FED_Code.py:158-166 | with distinct entries, k switches from position i reach position i + k while the end is not passed |
| `CameraCycle.SwitchedToFirst` | FED_Code.py:158-166 | with distinct entries, the switches from position i past the end of the list reach its first entry |
| `CameraCycle.FullCycle` | FED_Code.py:158-166 | with distinct entries, as many switches as there are cameras return to the starting camera |
| `CameraCycle.ConfiguredCycle` | FED_Code.py:19 | the configured list [0, 1, 2] is cycled 0, 1, 2, 0, and any other index goes to 0 |
| `Detection.Clamp` | FED_Code.py:325 | `max(0, v)`: non-negative, at least v, and either v or 0 |
| `Detection.NormaliseDefaults` | FED_Code.py:314-325 | about `Normalise`: x, y, w and h are the raw region values when present and non-negative, otherwise 0; the emotion is `dominant_emotion` or "unknown"; the probability is the score of that emotion, or 0.0 when it is missing or the scores are not a dict |
| `Detection.OverlayOf` | FED_Code.py:328-330 | the box's top-left corner is (x, y) and it runs to (x + w, y + h), non-negative; the emotion label sits at x, at height max(12, y - 8), so never above 12; the probability label sits at x, 30 below the box |
| `Detection.SliceLength` | FED_Code.py:334 | a slice [lo:lo + len] of a dimension of length n keeps nothing exactly when lo >= n or len = 0, otherwise len indices or those up to n |
| `Detection.Thumbnail` | FED_Code.py:333-337 | the thumbnail is blank exactly when w or h is 0 or the box starts outside the 1280 x 720 frame; otherwise it is the non-empty part of the box inside the frame |
| `Detection.CardsOfEach` | FED_Code.py:312-345 | one card per result, in order, each built from the normalised face |
| `Detection.OverlaysOfEach` | FED_Code.py:312-330 | one overlay per result, in order |
| `Detection.Primary` | FED_Code.py:347-349 | the speech candidate is the first card's emotion, and there is none exactly when there are no cards |
| `Detection.CollectResults` | FED_Code.py:312-345 | the per-result loop yields exactly the overlays and the cards of all records, in order |
| `Detection.CollectFaces` | FED_Code.py:298-354 | the face block yields the overlays and cards of the records of the analysis (none when it raised) and the first face's emotion as the candidate |
| `Detection.AnalysisCards` | FED_Code.py:298-354 | about `AsList` (lines 308-309) and `CardsOf`: a dict gives exactly the one card of its record and its emotion as the candidate; an exception gives no cards and no candidate |
| `Detection.HappyFace` | FED_Code.py:314-345 | region (10, 10, 50, 50) labelled "happy" at 92.5 gives the box (10, 10)-(60, 60), the labels at (10, 12) and (10, 90), and the card ("happy", 92.5) |
| `Detection.BareRecord` | FED_Code.py:314-325 | a negative x becomes 0, missing keys become 0 and "unknown", and non-dict scores give probability 0.0 |
| `Speech.Step` | FED_Code.py:386-391 | with `Fires` the condition of lines 387-388: the limiter's state changes exactly when the trigger fires, and then becomes (candidate, now) |
| `Speech.Said` | FED_Code.py:387-393 | an evaluation announces at most one utterance, and one exactly when the trigger fires: the candidate at the current time |
| `Speech.FiresOnChange` | FED_Code.py:387-391 | with speech on, a non-empty candidate that differs from the last spoken emotion fires at once |
| `Speech.FiresAfterCooldown` | FED_Code.py:387-391 | with speech on, a non-empty candidate fires once more than the cooldown has passed since the last utterance |
| `Speech.QuietWithinCooldown` | FED_Code.py:387-388 | the last spoken emotion does not fire again within the cooldown, and the state stays unchanged |
| `Speech.ReplayRemembersLast` | FED_Code.py:385-391 | after a run of frames the state holds the label and time of the last utterance, or the initial state if nothing was said |
| `Speech.ReplaySpaced` | FED_Code.py:385-396 | in every run, two utterances in a row of the same label are more than the cooldown apart, and so is the first from the state the run started in |
| `Cards.WidgetsShape` | FED_Code.py:235-261 | about `Widgets`: the rebuilt panel holds exactly one widget, the placeholder, when there are no faces; otherwise exactly one card per face, in order, and no placeholder |
| `App.Toggled` | FED_Code.py:143-145 | toggling always changes the theme |
| `App.ToggledTwice` | FED_Code.py:145 | toggling the theme twice restores it |
| `App.Session.constructor` | FED_Code.py:37-53 | start-up state: stopped, no device, camera 0, backend "opencv", nothing spoken at time 0, dark theme, windowed, no cards; the empty `card_widgets` follows line 221 and the status text "Stopped" line 77 |
| `App.Session.SetBackend` | FED_Code.py:153-156 | the backend becomes the chosen value and the status line reports it |
| `App.Session.StartCamera` | FED_Code.py:174-184 | when running, nothing changes and no device is opened; otherwise one device is opened and the session runs exactly when it opened, with the status line saying which |
| `App.Session.StopCamera` | FED_Code.py:186-196 | from any state, even one whose cards are still shown (only the camera index must be in the list): not running, no cards, no open device held, the handle if any released, status "Stopped" |
| `App.Session.SwitchCamera` | FED_Code.py:158-172 | the index moves to the next camera; when stopped, only the status line also changes, to "Camera switched to <index>"; when running, the old device is released and a new one is opened for the new index, running exactly when it opens |
| `App.Session.ToggleTheme` | FED_Code.py:143-146 | the theme becomes the other one |
| `App.Session.ToggleFullscreen` | FED_Code.py:418-427 | the fullscreen flag is negated |
| `App.Session.ClearCards` | FED_Code.py:223-227 | the card list is empty |
| `App.Session.UpdateCards` | FED_Code.py:229-261 | the card list is the rebuilt panel of `Cards.Widgets` for the faces given |
| `App.Session.Speak` | FED_Code.py:385-393 | the limiter takes one step, and the utterance it announces, if any, is handed to the engine when one exists |
| `App.AnnouncementsReplay` | FED_Code.py:280-396 | the pass-by-pass limiter of the capture loop is the replay of the limiter over the frames read |
| `App.Session.ProcessFrame` | FED_Code.py:285-396 | a failed read changes nothing; otherwise the cards and the kept frame are those of this analysis, the limiter takes one step, and an utterance is recorded exactly when it fires and an engine exists |
| `App.Session.ProcessFrames` | FED_Code.py:280-398 | over a run of passes, the limiter ends in the replay of the frames read, the utterances are those of the replay, and the cards and kept frame are those of the last frame read |

`App.Session.Valid` is the invariant that every handler keeps:

- the camera index is in the camera list;
- a running session holds an open, unreleased device;
- a stopped session holds none and shows no cards.

## Left out

- Widget construction, layout, colours and the widget styling of `apply_theme` (FED_Code.py:34-148, 243-260) are tkinter calls. The theme is the two-valued datatype `Dark | Light`. The source keeps the strings "dark" and "light", and those are the only two values it ever holds.
- The destroy loop of `clear_cards` is a widget call. `ClearCards` only empties the list.
- `DeepFace.analyze`, `cv2.VideoCapture`/`read`/`resize`/`rectangle`/`putText`, colour conversion and PIL images are foreign calls. They appear only as the `Analysis` input, the `deviceOpens` flag, the `Unread` step, the overlay records and the thumbnail descriptions.
- `Detection.Normalise`: region values are integers. Several Python cases are not modelled: `int()` truncating a float, an `int()` or attribute error midway through the loop (which would keep the cards collected so far but skip FED_Code.py:347-349, so that frame speaks nothing), and a `dominant_emotion` that is not a string.
- The grey fallback thumbnail for an exception during colour conversion (FED_Code.py:341-343) is not modelled: it belongs to the image library.
- FPS smoothing (FED_Code.py:357-362) is floating-point numerics.
- Threads and `window.after` are concurrency. `start_camera` launches the loop (FED_Code.py:184); in the model the caller then runs `ProcessFrames` over the passes the loop makes. A stop from the UI thread while the loop runs ends that script. The iteration that may still complete after a stop (and refill the cards) is not modelled, so the invariant "stopped means no cards" holds for this sequential model only. Nor is a switch while running: `switch_camera` stops, sleeps and starts again (FED_Code.py:170-172), and an old loop still inside a slow analysis call never sees `is_running` cleared at its `while` check (FED_Code.py:285), so it keeps running beside the thread started at FED_Code.py:184. `App.Session.SwitchCamera` cannot show these two concurrent loops.
- Speech threads and the speech engine are foreign calls. Whether the engine initialised is the constant `hasSpeechEngine`. The ghost log `spoken` stands for the utterances dispatched.
- The displayed video image (`video_label`, cleared by `stop_camera`) is UI state set through `window.after`. `lastFrame` models only `last_frame_image`, the frame kept for screenshots.
- `time.sleep` in the loop and in `switch_camera` is wall-clock timing.
- `save_screenshot` (FED_Code.py:201-216) is filesystem and date formatting.
- `on_close` (FED_Code.py:404-411) is `stop_camera` followed by a call to stop the speech engine and windowing calls. Only `StopCamera` is modelled.
- The capture thread calls `update_cards` directly (FED_Code.py:381), not through `window.after`. The model rebuilds the cards inside the pass.
