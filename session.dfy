/** The session control state that FED_Code.py keeps in module globals, and
    the handlers that change it: start, stop and switch the camera, choose
    the detector backend, the two presentation toggles, the card panel, and
    the capture loop with its speech rate limiter. */
module App {
  import opened Wrappers
  import Config
  import CameraCycle
  import Detection
  import Speech
  import Cards

  datatype Theme = Dark | Light

  /** The theme toggle_theme switches to. */
  function Toggled(t: Theme): (r: Theme)
    ensures r != t
  {
    if t == Dark then Light else Dark
  }

  /** Toggling the theme twice restores it. */
  lemma ToggledTwice(t: Theme)
    ensures Toggled(Toggled(t)) == t
  {
  }

  /** The global `camera`: none before the first start, otherwise the last
      capture handle created, whether it opened and whether it was released. */
  datatype Camera = NoDevice | Capture(index: int, isOpen: bool, released: bool)

  /** An open device that has not been released. */
  predicate Holding(c: Camera)
  {
    c.Capture? && c.isOpen && !c.released
  }

  /** The text of the status line. */
  datatype Status =
    | Stopped
    | BackendSet(backend: string)
    | CameraSwitched(index: int)
    | CouldNotOpen(index: int)
    | Running(index: int, backend: string)

  /** One pass of the capture loop as the environment decides it: the read
      failed, or a frame was read and analysed, at a time, with the speech
      toggle on or off. */
  datatype FrameStep = Unread | Read(analysis: Detection.Analysis, now: int, speechOn: bool)

  /** The evaluation of the speech trigger at the end of a pass that read a frame. */
  function TickOf(step: FrameStep): Speech.Tick
    requires step.Read?
  {
    Speech.Tick(step.speechOn, Detection.Primary(Detection.CardsOf(Detection.AsList(step.analysis))), step.now)
  }

  /** The trigger evaluations of the first n passes of a run, one per frame read. */
  function Ticks(steps: seq<FrameStep>, n: nat): seq<Speech.Tick>
    requires n <= |steps|
  {
    if n == 0 then []
    else Ticks(steps, n - 1) + if steps[n - 1].Read? then [TickOf(steps[n - 1])] else []
  }

  /** The analysis of the last frame read in the first n passes of a run, if any. */
  function LastRead(steps: seq<FrameStep>, n: nat): Option<Detection.Analysis>
    requires n <= |steps|
  {
    if n == 0 then None
    else if steps[n - 1].Read? then Some(steps[n - 1].analysis)
    else LastRead(steps, n - 1)
  }

  /** The limiter state and the announcements after the first n passes of
      a run, pass by pass: a pass that read a frame takes one step. */
  function Announcements(s: Speech.SpeechState, steps: seq<FrameStep>, n: nat): (Speech.SpeechState, seq<Speech.Utterance>)
    requires n <= |steps|
  {
    if n == 0 then (s, [])
    else
      var (mid, said) := Announcements(s, steps, n - 1);
      if steps[n - 1].Read? then (Speech.Step(mid, TickOf(steps[n - 1])), said + Speech.Said(mid, TickOf(steps[n - 1])))
      else (mid, said)
  }

  /** Pass by pass, the loop replays the limiter over the frames it read. */
  lemma {:induction false} AnnouncementsReplay(s: Speech.SpeechState, steps: seq<FrameStep>, n: nat)
    requires n <= |steps|
    ensures Announcements(s, steps, n) == Speech.Replay(s, Ticks(steps, n))
  {
    if n > 0 {
      var before := Ticks(steps, n - 1);
      assert Announcements(s, steps, n - 1) == Speech.Replay(s, before) by {
        AnnouncementsReplay(s, steps, n - 1);
      }
      if steps[n - 1].Read? {
        var t := TickOf(steps[n - 1]);
        assert Ticks(steps, n) == before + [t];
        Speech.ReplaySnoc(s, before, t);
      } else {
        assert Ticks(steps, n) == before + [];
        assert before + [] == before;
      }
    }
  }

  class Session {
    var isRunning: bool
    var camera: Camera
    var cameraIndex: int
    var detectorBackend: string
    var lastSpokenEmotion: Option<string>
    var lastSpokenTime: int
    var theme: Theme
    var useFullscreen: bool
    /** card_widgets */
    var cards: seq<Cards.Widget>
    var status: Status
    /** The overlays of the last frame the loop processed (last_frame_image). */
    var lastFrame: Option<seq<Detection.Overlay>>
    /** Whether the speech engine could be initialised at start-up. */
    const hasSpeechEngine: bool

    /** The announcements handed to the speech engine. */
    ghost var spoken: seq<Speech.Utterance>
    /** The number of capture devices created and released. */
    ghost var opens: nat
    ghost var releases: nat

    ghost predicate Valid()
      reads this
    {
      && cameraIndex in Config.CameraIds
      && (isRunning ==> Holding(camera))
      && (!isRunning ==> !Holding(camera) && cards == [])
    }

    /** The state of the speech rate limiter. */
    function Limiter(): Speech.SpeechState
      reads this
    {
      Speech.SpeechState(lastSpokenEmotion, lastSpokenTime)
    }

    constructor (hasSpeechEngine: bool)
      ensures Valid() && this.hasSpeechEngine == hasSpeechEngine
      ensures !isRunning && camera == NoDevice && status == Stopped
      ensures cameraIndex == Config.DefaultCameraIndex && detectorBackend == Config.DefaultBackend
      ensures Limiter() == Speech.Initial
      ensures theme == Dark && !useFullscreen
      ensures cards == [] && lastFrame == None
      ensures spoken == [] && opens == 0 && releases == 0
    {
      this.hasSpeechEngine := hasSpeechEngine;
      isRunning := false;
      camera := NoDevice;
      cameraIndex := Config.DefaultCameraIndex;
      detectorBackend := Config.DefaultBackend;
      lastSpokenEmotion := None;
      lastSpokenTime := 0;
      theme := Dark;
      useFullscreen := false;
      cards := [];
      status := Stopped;
      lastFrame := None;
      spoken := [];
      opens := 0;
      releases := 0;
    }

    /** The backend takes effect on the next frame analysed. */
    method SetBackend(value: string)
      modifies this`detectorBackend, this`status
      ensures detectorBackend == value && status == BackendSet(value)
    {
      detectorBackend := value;
      status := BackendSet(detectorBackend);
    }

    /** `deviceOpens` is whether the new capture handle reports itself open. */
    method StartCamera(deviceOpens: bool)
      requires Valid()
      modifies this`isRunning, this`camera, this`status, this`opens
      ensures Valid()
      ensures old(isRunning) ==>
                isRunning && camera == old(camera) && status == old(status) && opens == old(opens)
      ensures !old(isRunning) ==>
                && opens == old(opens) + 1
                && camera == Capture(cameraIndex, deviceOpens, false)
                && isRunning == deviceOpens
                && status == if deviceOpens then Running(cameraIndex, detectorBackend) else CouldNotOpen(cameraIndex)
    {
      if isRunning {
        return;
      }
      camera := Capture(cameraIndex, deviceOpens, false);
      opens := opens + 1;
      if !camera.isOpen {
        status := CouldNotOpen(cameraIndex);
        return;
      }
      isRunning := true;
      status := Running(cameraIndex, detectorBackend);
    }

    /** Stopping works from every state, also when no camera was ever opened. */
    method StopCamera()
      requires cameraIndex in Config.CameraIds
      modifies this`isRunning, this`camera, this`status, this`cards, this`releases
      ensures Valid()
      ensures !isRunning && cards == [] && status == Stopped
      ensures !Holding(camera)
      ensures old(camera).Capture? ==> camera == old(camera).(released := true) && releases == old(releases) + 1
      ensures old(camera).NoDevice? ==> camera == NoDevice && releases == old(releases)
    {
      isRunning := false;
      if camera.Capture? {
        camera := camera.(released := true);
        releases := releases + 1;
      }
      ClearCards();
      status := Stopped;
    }

    method SwitchCamera(deviceOpens: bool)
      requires Valid()
      modifies this`cameraIndex, this`status, this`isRunning, this`camera, this`cards, this`opens, this`releases
      ensures Valid()
      ensures cameraIndex == CameraCycle.NextCamera(Config.CameraIds, old(cameraIndex))
      ensures !old(isRunning) ==>
                && !isRunning && status == CameraSwitched(cameraIndex) && camera == old(camera)
                && opens == old(opens) && releases == old(releases)
      ensures old(isRunning) ==>
                && releases == old(releases) + 1 && opens == old(opens) + 1
                && camera == Capture(cameraIndex, deviceOpens, false)
                && isRunning == deviceOpens && cards == []
                && status == if deviceOpens then Running(cameraIndex, detectorBackend) else CouldNotOpen(cameraIndex)
    {
      cameraIndex := CameraCycle.NextCamera(Config.CameraIds, cameraIndex);
      status := CameraSwitched(cameraIndex);
      if isRunning {
        StopCamera();
        StartCamera(deviceOpens);
      }
    }

    method ToggleTheme()
      modifies this`theme
      ensures theme == Toggled(old(theme))
    {
      theme := if theme == Dark then Light else Dark;
    }

    method ToggleFullscreen()
      modifies this`useFullscreen
      ensures useFullscreen == !old(useFullscreen)
    {
      useFullscreen := !useFullscreen;
    }

    method ClearCards()
      modifies this`cards
      ensures cards == []
    {
      cards := [];
    }

    /** Rebuild the card panel from the faces of one frame. */
    method UpdateCards(faces: seq<Detection.Card>)
      modifies this`cards
      ensures cards == Cards.Widgets(faces)
    {
      ClearCards();
      if faces == [] {
        cards := cards + [Cards.Placeholder];
        return;
      }
      for i := 0 to |faces|
        invariant |cards| == i
        invariant forall j :: 0 <= j < i ==> cards[j] == Cards.FaceCard(faces[j])
      {
        cards := cards + [Cards.FaceCard(faces[i])];
      }
    }

    /** The announcements handed to the engine for one evaluation of the
        trigger: those the limiter makes, when an engine exists. */
    function Dispatched(said: seq<Speech.Utterance>): seq<Speech.Utterance>
    {
      if hasSpeechEngine then said else []
    }

    /** The speech trigger at the end of a pass: the limiter takes one step,
        and a firing announcement is handed to the engine if there is one. */
    method Speak(tick: Speech.Tick)
      modifies this`lastSpokenEmotion, this`lastSpokenTime, this`spoken
      ensures Limiter() == Speech.Step(old(Limiter()), tick)
      ensures spoken == old(spoken) + Dispatched(Speech.Said(old(Limiter()), tick))
    {
      if Speech.Fires(Limiter(), tick) {
        lastSpokenEmotion := tick.candidate;
        lastSpokenTime := tick.now;
        if hasSpeechEngine {
          spoken := spoken + [Speech.Utterance(tick.candidate.value, tick.now)];
        }
      }
    }

    /** One pass of the capture loop. */
    method ProcessFrame(step: FrameStep)
      requires Valid() && isRunning
      modifies this`cards, this`lastFrame, this`lastSpokenEmotion, this`lastSpokenTime, this`spoken
      ensures Valid() && isRunning
      ensures step.Unread? ==> unchanged(this)
      ensures step.Read? ==>
                var results := Detection.AsList(step.analysis);
                && cards == Cards.Widgets(Detection.CardsOf(results))
                && lastFrame == Some(Detection.OverlaysOf(results))
                && Limiter() == Speech.Step(old(Limiter()), TickOf(step))
                && spoken == old(spoken) + Dispatched(Speech.Said(old(Limiter()), TickOf(step)))
    {
      if step.Unread? {
        return;
      }
      var overlays, faces, primary := Detection.CollectFaces(step.analysis);
      lastFrame := Some(overlays);
      UpdateCards(faces);
      Speak(Speech.Tick(step.speechOn, primary, step.now));
    }

    /** The capture loop, over the passes it makes before it is stopped. */
    method ProcessFrames(steps: seq<FrameStep>)
      requires Valid() && isRunning
      modifies this`cards, this`lastFrame, this`lastSpokenEmotion, this`lastSpokenTime, this`spoken
      ensures Valid() && isRunning
      ensures Limiter() == Speech.Replay(old(Limiter()), Ticks(steps, |steps|)).0
      ensures spoken == old(spoken) + Dispatched(Speech.Replay(old(Limiter()), Ticks(steps, |steps|)).1)
      ensures LastRead(steps, |steps|).None? ==> cards == old(cards) && lastFrame == None
      ensures LastRead(steps, |steps|).Some? ==>
                var results := Detection.AsList(LastRead(steps, |steps|).value);
                cards == Cards.Widgets(Detection.CardsOf(results)) && lastFrame == Some(Detection.OverlaysOf(results))
    {
      lastFrame := None;
      for i := 0 to |steps|
        invariant Valid() && isRunning
        invariant Limiter() == Announcements(old(Limiter()), steps, i).0
        invariant spoken == old(spoken) + Dispatched(Announcements(old(Limiter()), steps, i).1)
        invariant LastRead(steps, i).None? ==> cards == old(cards) && lastFrame == None
        invariant LastRead(steps, i).Some? ==>
                    var results := Detection.AsList(LastRead(steps, i).value);
                    cards == Cards.Widgets(Detection.CardsOf(results)) && lastFrame == Some(Detection.OverlaysOf(results))
      {
        if steps[i].Read? {
          ghost var (mid, said) := Announcements(old(Limiter()), steps, i);
          ghost var now := Speech.Said(mid, TickOf(steps[i]));
          assert Dispatched(said + now) == Dispatched(said) + Dispatched(now);
        }
        ProcessFrame(steps[i]);
      }
      AnnouncementsReplay(old(Limiter()), steps, |steps|);
    }
  }
}
