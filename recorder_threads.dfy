/** The two threads of the exercise recorder
    (widgets/exercise_recorder/model_threads.py): an SMPL thread that plays
    an exercise with an ever-growing frame counter read modulo the
    exercise's length, and an HMR thread that draws the pose of every frame
    read from the capture and records takes. */
module RecorderThreads {
  import opened Common
  import opened SmplCursor
  import opened Recording
  import opened Paths

  /** The row the recorder's SMPL thread reads: `exercise[i % len(exercise)]`. */
  function CyclicRow(ex: Exercise, i: int): (r: Result<seq<real>>)
    ensures ex.Frames? && |ex.rows| > 0 ==> r == Ok(ex.rows[PyMod(i, |ex.rows|)])
    ensures r.Err? <==> !ex.Frames? || |ex.rows| == 0
  {
    match ex
    case Unset => Err(AttributeError)
    case NoneValue => Err(TypeError)
    case Frames(rows) => if |rows| == 0 then Err(ZeroDivisionError) else Ok(rows[PyMod(i, |rows|)])
  }

  lemma ModAddLeft(s: int, j: int, n: int)
    requires n > 0
    ensures PyMod(PyMod(s, n) + j, n) == PyMod(s + j, n)
  {
    var q, r := s / n, s % n;
    var q2, r2 := (r + j) / n, (r + j) % n;
    assert s + j == (q + q2) * n + r2 by {
      assert s == q * n + r;
      assert r + j == q2 * n + r2;
      assert (q + q2) * n == q * n + q2 * n;
    }
    DivModUnique(s + j, n, q + q2, r2);
  }

  /** The recorder's unbounded counter read modulo N picks the same frames
      as the wrapped index of the playback threads started from the same
      frame. */
  lemma CounterMatchesWrappedIndex(start: int, n: int, k: nat)
    requires n > 0
    ensures forall j :: 0 <= j < k ==> PlayedIndices(PyMod(start, n), n, k)[j] == PyMod(start + j, n)
  {
    PlayedIndicesCycle(PyMod(start, n), n, k);
    forall j | 0 <= j < k
      ensures PlayedIndices(PyMod(start, n), n, k)[j] == PyMod(start + j, n)
    {
      ModAddLeft(start, j, n);
    }
  }

  class SmplThread {
    var exercise: Exercise
    var frameIndex: int
    var paused: bool
    /** The outputs handed to output_fn, in order. */
    var delivered: seq<SmplOutput>

    constructor ()
      ensures exercise == Unset && frameIndex == 0 && paused && delivered == []
    {
      exercise := Unset;
      frameIndex := 0;
      paused := true;
      delivered := [];
    }

    /** The exercise setter: the counter goes back to 0, then the array is
        stored. */
    method SetExercise(ex: Option<seq<seq<real>>>)
      modifies this
      ensures exercise == Assigned(ex) && frameIndex == 0
      ensures paused == old(paused) && delivered == old(delivered)
    {
      frameIndex := 0;
      exercise := Assigned(ex);
    }

    /** One pass of the loop: prepare_inputs reads the frame the counter
        names modulo the length, predict runs the network, and
        process_outputs hands the output on and counts one more frame. */
    method Step(net: seq<real> -> SmplOutput) returns (r: Outcome)
      modifies this
      ensures CyclicRow(old(exercise), old(frameIndex)).Err? ==>
        r == Raised(CyclicRow(old(exercise), old(frameIndex)).error) &&
        frameIndex == old(frameIndex) && delivered == old(delivered)
      ensures CyclicRow(old(exercise), old(frameIndex)).Ok? ==>
        r == Done && frameIndex == old(frameIndex) + 1 &&
        delivered == old(delivered) + [net(CyclicRow(old(exercise), old(frameIndex)).value)]
      ensures exercise == old(exercise) && paused == old(paused)
    {
      match CyclicRow(exercise, frameIndex)
      case Err(e) =>
        r := Raised(e);
      case Ok(thetas) =>
        var outputs := net(thetas);
        delivered := delivered + [outputs];
        frameIndex := frameIndex + 1;
        r := Done;
    }
  }

  /** prepare_inputs: the frame is preprocessed before `ret` is looked at.
      A failed read gives None for the frame, which has no `shape`, so
      preprocessing it raises AttributeError; a good frame is handed on
      (the image processing itself is not modelled). */
  function PrepareInputs(read: CaptureRead): (r: Result<CaptureRead>)
    ensures r.Ok? <==> read.ok
    ensures !read.ok ==> r == Err(AttributeError)
    ensures read.ok ==> r.value.ok && r.value.frame == read.frame
  {
    if read.ok then Ok(read) else Err(AttributeError)
  }

  class HmrThread {
    var source: string
    var capture: Capture
    var thetas: seq<seq<real>>
    var saving: bool
    var paused: bool
    /** The calls made on save_fn and on output_fn, in order. */
    var saved: seq<SavedTake>
    var drawn: seq<HmrOutput>

    function State(): Recorder
      reads this
    {
      Recorder(thetas, saving, paused)
    }

    /** A new thread captures from camera 0 and is not saving. */
    constructor ()
      ensures source == "cam" && capture == Device(0)
      ensures thetas == [] && !saving && paused && saved == [] && drawn == []
    {
      source := "cam";
      capture := Device(0);
      thetas := [];
      saving := false;
      paused := true;
      saved := [];
      drawn := [];
    }

    /** predict on one read of the capture. */
    method Predict(read: CaptureRead, net: seq<real> -> HmrPrediction) returns (out: Option<HmrOutput>)
      modifies this
      ensures (State(), out) == PredictStep(old(State()), read, net)
      ensures source == old(source) && capture == old(capture)
      ensures saved == old(saved) && drawn == old(drawn)
    {
      var p := net(read.frame);
      if read.ok {
        if saving {
          thetas := thetas + [PoseShape(p.theta)];
        }
        out := Some(Pose(p.verts, p.joints3d));
      } else if saving {
        var take := thetas;
        saving := false;
        thetas := [];
        paused := true;
        out := Some(Take(take));
      } else {
        out := None;
      }
    }

    /** process_outputs: a take goes to save_fn under the source's file name
        without its extension, a pose to output_fn; no output at all raises
        AttributeError, since `.keys()` is called on None. */
    method ProcessOutputs(out: Option<HmrOutput>) returns (r: Outcome)
      modifies this
      ensures out.None? ==> r == Raised(AttributeError) && saved == old(saved) && drawn == old(drawn)
      ensures out.Some? && out.value.Take? ==>
        r == Done && saved == old(saved) + [SavedTake(Stem(Basename(source)), out.value.thetas)] &&
        drawn == old(drawn)
      ensures out.Some? && out.value.Pose? ==>
        r == Done && drawn == old(drawn) + [out.value] && saved == old(saved)
      ensures State() == old(State()) && source == old(source) && capture == old(capture)
    {
      match out
      case None =>
        r := Raised(AttributeError);
      case Some(Take(t)) =>
        saved := saved + [SavedTake(Stem(Basename(source)), t)];
        r := Done;
      case Some(Pose(v, j)) =>
        drawn := drawn + [Pose(v, j)];
        r := Done;
    }

    /** One pass of the thread's loop: prepare_inputs, predict and
        process_outputs. A good read draws its pose and keeps its thetas
        while saving; a failed read raises in prepare_inputs, so predict
        never hands on a take and nothing changes. */
    method Step(read: CaptureRead, net: seq<real> -> HmrPrediction) returns (r: Outcome)
      modifies this
      ensures !read.ok ==> r == Raised(AttributeError) && State() == old(State()) && drawn == old(drawn)
      ensures read.ok ==> r == Done && State() == PredictStep(old(State()), read, net).0
      ensures read.ok ==> drawn == old(drawn) + [Pose(net(read.frame).verts, net(read.frame).joints3d)]
      ensures saved == old(saved) && source == old(source) && capture == old(capture)
    {
      var inputs := PrepareInputs(read);
      if inputs.Err? {
        return Raised(inputs.error);
      }
      var out := Predict(inputs.value, net);
      r := ProcessOutputs(out);
    }

    /** pause(): the thread waits and the windows are closed. */
    method Pause()
      modifies this
      ensures paused && thetas == old(thetas) && saving == old(saving)
      ensures source == old(source) && capture == old(capture) && saved == old(saved) && drawn == old(drawn)
    {
      paused := true;
    }

    method Resume()
      modifies this
      ensures !paused && thetas == old(thetas) && saving == old(saving)
      ensures source == old(source) && capture == old(capture) && saved == old(saved) && drawn == old(drawn)
    {
      paused := false;
    }

    /** save(): arms saving; thetas already kept stay. */
    method Save()
      modifies this
      ensures saving && thetas == old(thetas) && paused == old(paused)
      ensures source == old(source) && capture == old(capture) && saved == old(saved) && drawn == old(drawn)
    {
      saving := true;
    }

    /** The capture setter: the source is recorded first; "cam" opens camera
        0, an existing path opens the file, and any other path raises
        FileNotFoundError with the capture left as it was. */
    method SetCapture(src: string, fileExists: string -> bool) returns (r: Outcome)
      modifies this
      ensures source == src
      ensures src == "cam" ==> r == Done && capture == Device(0)
      ensures src != "cam" && fileExists(src) ==> r == Done && capture == VideoFile(src)
      ensures src != "cam" && !fileExists(src) ==> r == Raised(FileNotFoundError) && capture == old(capture)
      ensures State() == old(State()) && saved == old(saved) && drawn == old(drawn)
    {
      source := src;
      if src == "cam" {
        capture := Device(0);
        r := Done;
      } else if fileExists(src) {
        capture := VideoFile(src);
        r := Done;
      } else {
        r := Raised(FileNotFoundError);
      }
    }
  }

  /** Recording a take from a video as written: save() is armed, every
      frame of the video is read, and then the read at its end fails.
      Whatever the video, that read raises AttributeError and save_fn is
      never called, although the thetas of every frame were kept. */
  method TakeNeverSaved(path: string, frames: seq<seq<real>>, endFrame: seq<real>, net: seq<real> -> HmrPrediction)
    returns (r: Outcome, saved: seq<SavedTake>, kept: seq<seq<real>>)
    ensures r == Raised(AttributeError) && saved == [] && kept == TakeThetas(frames, net)
  {
    var t := new HmrThread();
    var attached := t.SetCapture(path, p => true);
    t.Save();
    for k := 0 to |frames|
      invariant t.saving && t.saved == [] && t.thetas == TakeThetas(frames[..k], net)
    {
      var step := t.Step(CaptureRead(true, frames[k]), net);
      TakeThetasSnoc(frames[..k], frames[k], net);
      assert frames[..k + 1] == frames[..k] + [frames[k]];
    }
    assert frames[..|frames|] == frames;
    r := t.Step(CaptureRead(false, endFrame), net);
    saved, kept := t.saved, t.thetas;
  }
}
