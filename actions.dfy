/** The actions of the exercise editor (widgets/exercisor/actions.py): a
    playback action driving the editor's SMPL thread and a predict action
    driving the HMR thread, each with a running and a paused flag. The
    reset_ui and init_scene callbacks are recorded as calls. */
module Actions {
  import opened Common
  import opened SmplCursor
  import EditorSmplThread
  import ExercisorHmrThread
  import opened Recording

  class PlaybackAction {
    const thread: EditorSmplThread.SmplThread
    var running: bool
    var paused: bool
    /** How often reset_ui was called, and the modes init_scene received. */
    var uiResets: nat
    var scenes: seq<int>

    constructor (t: EditorSmplThread.SmplThread)
      ensures thread == t && !running && !paused && uiResets == 0 && scenes == []
    {
      thread := t;
      running := false;
      paused := false;
      uiResets := 0;
      scenes := [];
    }

    /** initialize: resets the UI, marks the action running, sets up the
        scene, and hands the exercise to the thread only when one is given. */
    method Initialize(smplMode: int, exercise: Option<seq<seq<real>>>)
      modifies this, thread
      ensures running && paused == old(paused)
      ensures uiResets == old(uiResets) + 1 && scenes == old(scenes) + [smplMode]
      ensures exercise.Some? ==>
        thread.exercise == Frames(exercise.value) &&
        thread.frameIndex == FrameIndexAfter(Frames(exercise.value), old(thread.frameIndex), 0.0).value
      ensures exercise.None? ==> thread.exercise == old(thread.exercise) && thread.frameIndex == old(thread.frameIndex)
      ensures thread.paused == old(thread.paused) && thread.delivered == old(thread.delivered)
    {
      uiResets := uiResets + 1;
      running := true;
      scenes := scenes + [smplMode];
      if exercise.Some? {
        thread.SetExercise(exercise);
      }
    }

    /** stop: not running, thread paused; the paused flag is left alone. */
    method Stop()
      modifies this, thread
      ensures !running && paused == old(paused) && thread.paused
      ensures uiResets == old(uiResets) && scenes == old(scenes)
      ensures thread.exercise == old(thread.exercise) && thread.frameIndex == old(thread.frameIndex)
      ensures thread.delivered == old(thread.delivered)
    {
      running := false;
      thread.Pause();
    }

    method Pause()
      modifies this, thread
      ensures paused && thread.paused && running == old(running)
      ensures uiResets == old(uiResets) && scenes == old(scenes)
      ensures thread.exercise == old(thread.exercise) && thread.frameIndex == old(thread.frameIndex)
      ensures thread.delivered == old(thread.delivered)
    {
      paused := true;
      thread.Pause();
    }

    method Resume()
      modifies this, thread
      ensures !paused && !thread.paused && running == old(running)
      ensures uiResets == old(uiResets) && scenes == old(scenes)
      ensures thread.exercise == old(thread.exercise) && thread.frameIndex == old(thread.frameIndex)
      ensures thread.delivered == old(thread.delivered)
    {
      paused := false;
      thread.Resume();
    }

    /** seek: pause, store the frame through the thread's clamping setter,
        resume. When the setter raises (no exercise was ever set), the
        error escapes and the action stays paused. */
    method Seek(newFrameIndx: real) returns (r: Outcome)
      modifies this, thread
      ensures FrameIndexAfter(old(thread.exercise), old(thread.frameIndex), newFrameIndx).Ok? ==>
        r == Done && !paused && !thread.paused &&
        thread.frameIndex == FrameIndexAfter(old(thread.exercise), old(thread.frameIndex), newFrameIndx).value
      ensures FrameIndexAfter(old(thread.exercise), old(thread.frameIndex), newFrameIndx).Err? ==>
        r == Raised(AttributeError) && paused && thread.paused && thread.frameIndex == old(thread.frameIndex)
      ensures thread.exercise == old(thread.exercise) && thread.delivered == old(thread.delivered)
      ensures running == old(running) && uiResets == old(uiResets) && scenes == old(scenes)
    {
      Pause();
      r := thread.SetFrameIndex(newFrameIndx);
      if r.Raised? {
        return;
      }
      Resume();
    }
  }

  /** After a seek into a non-empty exercise, playback runs again from a
      frame of the exercise: the floor of the requested position, clamped. */
  method SeekLandsInExercise(rows: seq<seq<real>>, position: real) returns (index: int)
    requires |rows| > 0
    ensures 0 <= index < |rows|
    ensures 0.0 <= position < |rows| as real ==> index == position.Floor
  {
    var t := new EditorSmplThread.SmplThread();
    var action := new PlaybackAction(t);
    action.Initialize(0, Some(rows));
    var r := action.Seek(position);
    FrameIndexClamps(rows, t.frameIndex, position);
    index := t.frameIndex.value;
  }

  class PredictAction {
    const thread: ExercisorHmrThread.HmrThread
    var running: bool
    var paused: bool
    var uiResets: nat
    var scenes: seq<int>

    constructor (t: ExercisorHmrThread.HmrThread)
      ensures thread == t && !running && !paused && uiResets == 0 && scenes == []
    {
      thread := t;
      running := false;
      paused := false;
      uiResets := 0;
      scenes := [];
    }

    /** initialize: resets the UI, marks the action running, sets up the
        scene, points the capture at `source` only when one is given, and
        arms saving only when asked to. A missing video file raises before
        saving is armed. */
    method Initialize(smplMode: int, source: Option<string>, saving: bool, fileExists: string -> bool)
      returns (r: Outcome)
      modifies this, thread
      ensures running && paused == old(paused)
      ensures uiResets == old(uiResets) + 1 && scenes == old(scenes) + [smplMode]
      ensures source.None? ==> r == Done && thread.capSource == old(thread.capSource) && thread.capture == old(thread.capture)
      ensures source.Some? ==> thread.capSource == source.value
      ensures source.Some? && source.value == old(thread.capSource) ==> r == Done && thread.capture == old(thread.capture)
      ensures source.Some? && source.value != old(thread.capSource) && source.value == "cam" ==>
        r == Done && thread.capture == Device(2)
      ensures (source.Some? && source.value != old(thread.capSource) && source.value != "cam" &&
               fileExists(source.value)) ==>
        r == Done && thread.capture == VideoFile(source.value)
      ensures (source.Some? && source.value != "cam" && source.value != old(thread.capSource) &&
               !fileExists(source.value)) ==>
        r == Raised(FileNotFoundError) && thread.capture == old(thread.capture) &&
        thread.saving == old(thread.saving) && thread.thetas == old(thread.thetas)
      ensures r == Done ==>
        (saving ==> thread.saving && thread.thetas == []) &&
        (!saving ==> thread.saving == old(thread.saving) && thread.thetas == old(thread.thetas))
      ensures thread.paused == old(thread.paused) && thread.saved == old(thread.saved) && thread.drawn == old(thread.drawn)
    {
      uiResets := uiResets + 1;
      running := true;
      scenes := scenes + [smplMode];
      r := Done;
      if source.Some? {
        r := thread.SetCapture(source.value, fileExists);
        if r.Raised? {
          return;
        }
      }
      if saving {
        thread.Save();
      }
    }

    /** stop: not running, thread paused; the paused flag is left alone. */
    method Stop()
      modifies this, thread
      ensures !running && paused == old(paused) && thread.paused
      ensures uiResets == old(uiResets) && scenes == old(scenes)
      ensures thread.thetas == old(thread.thetas) && thread.saving == old(thread.saving)
      ensures thread.capSource == old(thread.capSource) && thread.capture == old(thread.capture)
      ensures thread.saved == old(thread.saved) && thread.drawn == old(thread.drawn)
    {
      running := false;
      thread.Pause();
    }

    method Pause()
      modifies this, thread
      ensures paused && thread.paused && running == old(running)
      ensures uiResets == old(uiResets) && scenes == old(scenes)
      ensures thread.thetas == old(thread.thetas) && thread.saving == old(thread.saving)
      ensures thread.capSource == old(thread.capSource) && thread.capture == old(thread.capture)
      ensures thread.saved == old(thread.saved) && thread.drawn == old(thread.drawn)
    {
      paused := true;
      thread.Pause();
    }

    method Resume()
      modifies this, thread
      ensures !paused && !thread.paused && running == old(running)
      ensures uiResets == old(uiResets) && scenes == old(scenes)
      ensures thread.thetas == old(thread.thetas) && thread.saving == old(thread.saving)
      ensures thread.capSource == old(thread.capSource) && thread.capture == old(thread.capture)
      ensures thread.saved == old(thread.saved) && thread.drawn == old(thread.drawn)
    {
      paused := false;
      thread.Resume();
    }
  }
}
