/** The predict step the two HMR threads share
    (widgets/exercise_recorder/model_threads.py and
    widgets/exercisor/hmr_thread.py): a frame read from the capture is run
    through the network; while a take is being saved, the frame's thetas are
    kept; the first failed read of a take ends it, hands the kept thetas on
    and pauses the thread. The camera is a sequence of reads and the network
    an uninterpreted function. */
module Recording {
  import opened Common

  /** One `capture.read()`: whether a frame came, and the frame. */
  datatype CaptureRead = CaptureRead(ok: bool, frame: seq<real>)

  /** The network's prediction for one frame: the mesh vertices, the 3D
      joints and the 85 camera, pose and shape values. */
  datatype HmrPrediction = HmrPrediction(verts: seq<seq<real>>, joints3d: seq<seq<real>>, theta: seq<real>)

  /** What predict returns: a pose to draw, or a finished take. */
  datatype HmrOutput = Pose(verts: seq<seq<real>>, joints3d: seq<seq<real>>) | Take(thetas: seq<seq<real>>)

  /** The recording state of a thread: the kept thetas, the saving flag and
      the thread's pause state. */
  datatype Recorder = Recorder(thetas: seq<seq<real>>, saving: bool, paused: bool)

  /** Where a thread reads its frames from: a camera device or a video file. */
  datatype Capture = Device(id: int) | VideoFile(path: string)

  /** One call of save_fn: the name of the take and its thetas. */
  datatype SavedTake = SavedTake(name: string, thetas: seq<seq<real>>)

  /** `theta[0, 3:]`: the 82 pose and shape values after the 3 camera values. */
  function PoseShape(theta: seq<real>): (r: seq<real>)
    ensures |theta| >= 3 ==> r == theta[3..]
    ensures |theta| < 3 ==> r == []
  {
    if |theta| >= 3 then theta[3..] else []
  }

  /** The predict step: its new state and its output (None when a read
      fails outside a take). */
  function PredictStep(st: Recorder, read: CaptureRead, net: seq<real> -> HmrPrediction): (Recorder, Option<HmrOutput>)
  {
    if read.ok then
      var p := net(read.frame);
      (st.(thetas := if st.saving then st.thetas + [PoseShape(p.theta)] else st.thetas),
       Some(Pose(p.verts, p.joints3d)))
    else if st.saving then
      (Recorder([], false, true), Some(Take(st.thetas)))
    else
      (st, None)
  }

  /** What one step does: a good read always yields the pose and, during a
      take, adds exactly its thetas; a failed read during a take ends it,
      empties the list and pauses; a failed read otherwise changes nothing
      and yields nothing. */
  lemma PredictStepSpec(st: Recorder, read: CaptureRead, net: seq<real> -> HmrPrediction)
    ensures var (st', out) := PredictStep(st, read, net);
      (read.ok ==> out == Some(Pose(net(read.frame).verts, net(read.frame).joints3d)) &&
                   st'.saving == st.saving && st'.paused == st.paused &&
                   st'.thetas == st.thetas + (if st.saving then [PoseShape(net(read.frame).theta)] else [])) &&
      (!read.ok && st.saving ==> out == Some(Take(st.thetas)) && st' == Recorder([], false, true)) &&
      (!read.ok && !st.saving ==> out == None && st' == st)
  {
  }

  /** The thread's loop over a stream of reads: steps are taken until the
      thread pauses or the reads run out; the outputs are collected in
      order. */
  function Run(st: Recorder, stream: seq<CaptureRead>, net: seq<real> -> HmrPrediction): (r: (Recorder, seq<HmrOutput>))
    decreases |stream|
  {
    if stream == [] || st.paused then (st, [])
    else
      var step := PredictStep(st, stream[0], net);
      var tail := Run(step.0, stream[1..], net);
      (tail.0, (if step.1.Some? then [step.1.value] else []) + tail.1)
  }

  function Poses(frames: seq<seq<real>>, net: seq<real> -> HmrPrediction): (r: seq<HmrOutput>)
    ensures |r| == |frames|
  {
    if frames == [] then []
    else [Pose(net(frames[0]).verts, net(frames[0]).joints3d)] + Poses(frames[1..], net)
  }

  function TakeThetas(frames: seq<seq<real>>, net: seq<real> -> HmrPrediction): (r: seq<seq<real>>)
    ensures |r| == |frames|
  {
    if frames == [] then []
    else [PoseShape(net(frames[0]).theta)] + TakeThetas(frames[1..], net)
  }

  /** The thetas of one more frame go at the end of the take. */
  lemma {:induction false} TakeThetasSnoc(frames: seq<seq<real>>, f: seq<real>, net: seq<real> -> HmrPrediction)
    decreases |frames|
    ensures TakeThetas(frames + [f], net) == TakeThetas(frames, net) + [PoseShape(net(f).theta)]
  {
    if frames != [] {
      assert (frames + [f])[1..] == frames[1..] + [f];
      TakeThetasSnoc(frames[1..], f, net);
    }
  }

  function GoodReads(frames: seq<seq<real>>): (r: seq<CaptureRead>)
    ensures |r| == |frames|
    ensures forall i :: 0 <= i < |frames| ==> r[i] == CaptureRead(true, frames[i])
  {
    if frames == [] then [] else [CaptureRead(true, frames[0])] + GoodReads(frames[1..])
  }

  lemma RunUnfold(st: Recorder, stream: seq<CaptureRead>, net: seq<real> -> HmrPrediction)
    requires stream != [] && !st.paused
    ensures var step := PredictStep(st, stream[0], net);
      var tail := Run(step.0, stream[1..], net);
      Run(st, stream, net) == (tail.0, (if step.1.Some? then [step.1.value] else []) + tail.1)
  {
  }

  /** The failed read that ends a take hands on the kept thetas and pauses
      the thread, so nothing after it is read. */
  lemma TakeEnds(kept: seq<seq<real>>, endFrame: seq<real>, rest: seq<CaptureRead>, net: seq<real> -> HmrPrediction)
    ensures Run(Recorder(kept, true, false), [CaptureRead(false, endFrame)] + rest, net) ==
      (Recorder([], false, true), [Take(kept)])
  {
    var stream := [CaptureRead(false, endFrame)] + rest;
    RunUnfold(Recorder(kept, true, false), stream, net);
    assert PredictStep(Recorder(kept, true, false), stream[0], net) == (Recorder([], false, true), Some(Take(kept)));
    assert Run(Recorder([], false, true), stream[1..], net) == (Recorder([], false, true), []);
    assert [Take(kept)] + [] == [Take(kept)];
  }

  /** A good frame during a take is drawn and its thetas are kept. */
  lemma TakeGoodFrame(kept: seq<seq<real>>, frames: seq<seq<real>>, tail: seq<CaptureRead>, net: seq<real> -> HmrPrediction)
    requires frames != []
    ensures var p := net(frames[0]);
      var after := Run(Recorder(kept + [PoseShape(p.theta)], true, false), GoodReads(frames[1..]) + tail, net);
      Run(Recorder(kept, true, false), GoodReads(frames) + tail, net) == (after.0, [Pose(p.verts, p.joints3d)] + after.1)
  {
    var stream := GoodReads(frames) + tail;
    assert stream[0] == CaptureRead(true, frames[0]);
    assert stream[1..] == GoodReads(frames[1..]) + tail;
    RunUnfold(Recorder(kept, true, false), stream, net);
  }

  /** The kept thetas after a first frame, followed by those of the rest,
      are the kept thetas followed by those of all the frames. */
  lemma KeptThenRest(kept: seq<seq<real>>, frames: seq<seq<real>>, net: seq<real> -> HmrPrediction)
    requires frames != []
    ensures (kept + [PoseShape(net(frames[0]).theta)]) + TakeThetas(frames[1..], net) == kept + TakeThetas(frames, net)
  {
  }

  /** The first frame's pose in front of the rest's poses and a take. */
  lemma PosesThenTake(frames: seq<seq<real>>, taken: seq<HmrOutput>, net: seq<real> -> HmrPrediction)
    requires frames != []
    ensures [Pose(net(frames[0]).verts, net(frames[0]).joints3d)] + (Poses(frames[1..], net) + taken) == Poses(frames, net) + taken
  {
  }

  /** RecordTake with the failed read and what follows it as one tail. */
  lemma {:induction false} RecordTakeBefore(kept: seq<seq<real>>, frames: seq<seq<real>>, endFrame: seq<real>,
                                            rest: seq<CaptureRead>, net: seq<real> -> HmrPrediction)
    decreases |frames|
    ensures Run(Recorder(kept, true, false), GoodReads(frames) + ([CaptureRead(false, endFrame)] + rest), net) ==
      (Recorder([], false, true), Poses(frames, net) + [Take(kept + TakeThetas(frames, net))])
  {
    var tail := [CaptureRead(false, endFrame)] + rest;
    if frames == [] {
      assert GoodReads(frames) + tail == tail;
      TakeEnds(kept, endFrame, rest, net);
      assert kept + TakeThetas(frames, net) == kept;
      assert Poses(frames, net) + [Take(kept)] == [Take(kept)];
    } else {
      var kept' := kept + [PoseShape(net(frames[0]).theta)];
      TakeGoodFrame(kept, frames, tail, net);
      RecordTakeBefore(kept', frames[1..], endFrame, rest, net);
      KeptThenRest(kept, frames, net);
      PosesThenTake(frames, [Take(kept + TakeThetas(frames, net))], net);
    }
  }

  /** A whole take: with saving armed on a running thread, a stream of good
      frames followed by a failed read draws every frame, then hands on the
      thetas kept before plus those of every frame in order, and leaves the
      thread paused with an empty list and saving off; any reads after the
      failed one are not taken. */
  lemma RecordTake(kept: seq<seq<real>>, frames: seq<seq<real>>, endFrame: seq<real>,
                   rest: seq<CaptureRead>, net: seq<real> -> HmrPrediction)
    ensures Run(Recorder(kept, true, false), GoodReads(frames) + [CaptureRead(false, endFrame)] + rest, net) ==
      (Recorder([], false, true), Poses(frames, net) + [Take(kept + TakeThetas(frames, net))])
  {
    assert GoodReads(frames) + [CaptureRead(false, endFrame)] + rest == GoodReads(frames) + ([CaptureRead(false, endFrame)] + rest);
    RecordTakeBefore(kept, frames, endFrame, rest, net);
  }

  /** Without a take, a failed read yields nothing and the thread keeps
      running: frames before it are drawn and nothing is kept. */
  lemma {:induction false} RunWithoutTake(kept: seq<seq<real>>, frames: seq<seq<real>>,
                                          net: seq<real> -> HmrPrediction)
    ensures Run(Recorder(kept, false, false), GoodReads(frames), net) == (Recorder(kept, false, false), Poses(frames, net))
  {
    if frames != [] {
      assert GoodReads(frames)[1..] == GoodReads(frames[1..]);
      RunWithoutTake(kept, frames[1..], net);
    }
  }
}
