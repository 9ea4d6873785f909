/** The HMR thread of the exercise editor (widgets/exercisor/hmr_thread.py):
    it draws the pose of every frame read from its capture and records a
    take after save(), which it hands to save_fn when the capture runs out,
    under the capture's file name without its extension. */
module ExercisorHmrThread {
  import opened Common
  import opened Recording
  import opened Paths

  class HmrThread {
    var capSource: string
    var capture: Capture
    var thetas: seq<seq<real>>
    var saving: bool
    var paused: bool
    /** The calls made on save_fn and on output_fn, in order. */
    var saved: seq<SavedTake>
    var drawn: seq<HmrOutput>

    function State(): Recorder
      reads this
    {
      Recorder(thetas, saving, paused)
    }

    /** The source starts empty and is then set to "cam", which opens
        camera 2. */
    constructor ()
      ensures capSource == "cam" && capture == Device(2)
      ensures thetas == [] && !saving && paused && saved == [] && drawn == []
    {
      capSource := "cam";
      capture := Device(2);
      thetas := [];
      saving := false;
      paused := true;
      saved := [];
      drawn := [];
    }

    /** pause(): the windows are closed and the thread waits. */
    method Pause()
      modifies this
      ensures paused && thetas == old(thetas) && saving == old(saving)
      ensures capSource == old(capSource) && capture == old(capture) && saved == old(saved) && drawn == old(drawn)
    {
      paused := true;
    }

    method Resume()
      modifies this
      ensures !paused && thetas == old(thetas) && saving == old(saving)
      ensures capSource == old(capSource) && capture == old(capture) && saved == old(saved) && drawn == old(drawn)
    {
      paused := false;
    }

    /** _predict on one read of the capture. */
    method Predict(read: CaptureRead, net: seq<real> -> HmrPrediction) returns (out: Option<HmrOutput>)
      modifies this
      ensures (State(), out) == PredictStep(old(State()), read, net)
      ensures capSource == old(capSource) && capture == old(capture)
      ensures saved == old(saved) && drawn == old(drawn)
    {
      if read.ok {
        var p := net(read.frame);
        if saving {
          thetas := thetas + [PoseShape(p.theta)];
        }
        out := Some(Pose(p.verts, p.joints3d));
      } else if saving {
        saving := false;
        var take := thetas;
        thetas := [];
        paused := true;
        out := Some(Take(take));
      } else {
        out := None;
      }
    }

    /** _process_outputs: no output is ignored; a take goes to save_fn under
        the capture's file name without its extension; a pose goes to
        output_fn. */
    method ProcessOutputs(out: Option<HmrOutput>)
      modifies this
      ensures out.None? ==> saved == old(saved) && drawn == old(drawn)
      ensures out.Some? && out.value.Take? ==>
        saved == old(saved) + [SavedTake(Stem(Basename(capSource)), out.value.thetas)] && drawn == old(drawn)
      ensures out.Some? && out.value.Pose? ==> drawn == old(drawn) + [out.value] && saved == old(saved)
      ensures State() == old(State()) && capSource == old(capSource) && capture == old(capture)
    {
      match out
      case None =>
      case Some(Take(t)) =>
        saved := saved + [SavedTake(Stem(Basename(capSource)), t)];
      case Some(Pose(v, j)) =>
        drawn := drawn + [Pose(v, j)];
    }

    /** save(): empties the kept thetas, then arms saving. */
    method Save()
      modifies this
      ensures thetas == [] && saving && paused == old(paused)
      ensures capSource == old(capSource) && capture == old(capture) && saved == old(saved) && drawn == old(drawn)
    {
      thetas := [];
      saving := true;
    }

    /** The capture setter: the current source again changes nothing;
        otherwise the source is recorded first, "cam" opens camera 2, an
        existing path opens the file, and any other path raises
        FileNotFoundError with the capture left as it was. */
    method SetCapture(src: string, fileExists: string -> bool) returns (r: Outcome)
      modifies this
      ensures src == old(capSource) ==> r == Done && capture == old(capture) && capSource == old(capSource)
      ensures src != old(capSource) ==> capSource == src
      ensures src != old(capSource) && src == "cam" ==> r == Done && capture == Device(2)
      ensures src != old(capSource) && src != "cam" && fileExists(src) ==> r == Done && capture == VideoFile(src)
      ensures src != old(capSource) && src != "cam" && !fileExists(src) ==>
        r == Raised(FileNotFoundError) && capture == old(capture)
      ensures State() == old(State()) && saved == old(saved) && drawn == old(drawn)
    {
      if capSource == src {
        return Done;
      }
      capSource := src;
      if capSource == "cam" {
        capture := Device(2);
        r := Done;
      } else if fileExists(capSource) {
        capture := VideoFile(capSource);
        r := Done;
      } else {
        r := Raised(FileNotFoundError);
      }
    }
  }

  /** The same video ending without a take leaves the editor's HMR thread
      running: the failed read gives no output, which is ignored. */
  method VideoEndsWithoutTake(path: string, frame: seq<real>, net: seq<real> -> HmrPrediction)
    returns (drawnAfter: seq<HmrOutput>, savedAfter: seq<SavedTake>, stillRunning: bool)
    ensures drawnAfter == [] && savedAfter == [] && stillRunning
  {
    var t := new HmrThread();
    var attached := t.SetCapture(path, p => true);
    t.Resume();
    var out := t.Predict(CaptureRead(false, frame), net);
    t.ProcessOutputs(out);
    drawnAfter, savedAfter, stillRunning := t.drawn, t.saved, !t.paused;
  }

  /** The same take in the editor's thread: prepare_inputs looks at `ret`
      first and predict hands the kept thetas on at the failed read, so
      save_fn receives the thetas of every frame under the video's file
      name without its extension, and the thread pauses. */
  method TakeSavedAtVideoEnd(path: string, frames: seq<seq<real>>, endFrame: seq<real>, net: seq<real> -> HmrPrediction)
    returns (saved: seq<SavedTake>, stillRunning: bool)
    ensures saved == [SavedTake(Stem(Basename(path)), TakeThetas(frames, net))] && !stillRunning
  {
    var t := new HmrThread();
    var attached := t.SetCapture(path, p => true);
    t.Resume();
    t.Save();
    for k := 0 to |frames|
      invariant t.saving && t.saved == [] && t.capSource == path && t.thetas == TakeThetas(frames[..k], net)
    {
      var out := t.Predict(CaptureRead(true, frames[k]), net);
      t.ProcessOutputs(out);
      TakeThetasSnoc(frames[..k], frames[k], net);
      assert frames[..k + 1] == frames[..k] + [frames[k]];
    }
    assert frames[..|frames|] == frames;
    var out := t.Predict(CaptureRead(false, endFrame), net);
    t.ProcessOutputs(out);
    saved, stillRunning := t.saved, !t.paused;
  }
}
