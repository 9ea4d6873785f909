/** The SMPL playback thread of the exercisor screen (exercisor/smpl_thread.py):
    each step reads the thetas of the current frame, hands the network's
    vertices and keypoints for it to output_fn together with the frame's
    index, and moves to the next frame, wrapping around at the end. Its
    exercise setter stores the array and leaves the frame index alone. */
module PlayerSmplThread {
  import opened Common
  import opened SmplCursor

  class SmplThread {
    var exercise: Exercise
    var frameIndex: Option<int>
    /** The thread's pause state: a new thread waits until resumed. */
    var paused: bool
    /** The calls made on output_fn, in order. */
    var delivered: seq<Delivery>

    /** A frame of a non-empty exercise is selected. */
    predicate Playing()
      reads this
    {
      exercise.Frames? && |exercise.rows| > 0 &&
      frameIndex.Some? && 0 <= frameIndex.value < |exercise.rows|
    }

    constructor ()
      ensures exercise == Unset && frameIndex == None && paused && delivered == []
    {
      exercise := Unset;
      frameIndex := None;
      paused := true;
      delivered := [];
    }

    method Pause()
      modifies this
      ensures paused
      ensures exercise == old(exercise) && frameIndex == old(frameIndex) && delivered == old(delivered)
    {
      paused := true;
    }

    method Resume()
      modifies this
      ensures !paused
      ensures exercise == old(exercise) && frameIndex == old(frameIndex) && delivered == old(delivered)
    {
      paused := false;
    }

    /** The exercise setter: stores the array; the frame index is kept. */
    method SetExercise(ex: Option<seq<seq<real>>>)
      modifies this
      ensures exercise == Assigned(ex)
      ensures frameIndex == old(frameIndex) && paused == old(paused) && delivered == old(delivered)
    {
      exercise := Assigned(ex);
    }

    /** The frame_index setter. */
    method SetFrameIndex(newIndx: real) returns (r: Outcome)
      modifies this
      ensures FrameIndexAfter(old(exercise), old(frameIndex), newIndx).Ok? ==>
        r == Done && frameIndex == FrameIndexAfter(old(exercise), old(frameIndex), newIndx).value
      ensures FrameIndexAfter(old(exercise), old(frameIndex), newIndx).Err? ==>
        r == Raised(FrameIndexAfter(old(exercise), old(frameIndex), newIndx).error) &&
        frameIndex == old(frameIndex)
      ensures exercise == old(exercise) && paused == old(paused) && delivered == old(delivered)
    {
      match FrameIndexAfter(exercise, frameIndex, newIndx)
      case Ok(v) =>
        frameIndex := v;
        r := Done;
      case Err(e) =>
        r := Raised(e);
    }

    /** _prepare_inputs: nothing while no exercise was ever assigned,
        otherwise the current frame's thetas. */
    method PrepareInputs() returns (r: Result<Option<seq<real>>>)
      ensures exercise.Unset? ==> r == Ok(None)
      ensures !exercise.Unset? ==>
        (RowAt(exercise, frameIndex).Ok? ==> r == Ok(Some(RowAt(exercise, frameIndex).value))) &&
        (RowAt(exercise, frameIndex).Err? ==> r == Err(RowAt(exercise, frameIndex).error))
      ensures Playing() ==> r == Ok(Some(exercise.rows[frameIndex.value]))
    {
      if exercise.Unset? {
        return Ok(None);
      }
      match RowAt(exercise, frameIndex)
      case Ok(row) => r := Ok(Some(row));
      case Err(e) => r := Err(e);
    }

    /** _process_outputs: with outputs, output_fn receives them with the
        current index, and the index moves to (index + 1) mod N through the
        setter; without outputs nothing happens. */
    method ProcessOutputs(outputs: Option<SmplOutput>) returns (r: Outcome)
      modifies this
      ensures outputs.None? ==> r == Done && frameIndex == old(frameIndex) && delivered == old(delivered)
      ensures outputs.Some? && old(frameIndex).None? ==>
        r == Raised(AttributeError) && frameIndex == old(frameIndex) && delivered == old(delivered)
      ensures outputs.Some? && old(frameIndex).Some? ==>
        delivered == old(delivered) + [Delivery(old(frameIndex).value, outputs.value)]
      ensures outputs.Some? && old(Playing()) ==>
        r == Done && frameIndex == Some(NextIndex(old(frameIndex).value, |old(exercise).rows|))
      ensures exercise == old(exercise) && paused == old(paused)
    {
      if outputs.None? {
        return Done;
      }
      if frameIndex.None? {
        return Raised(AttributeError);
      }
      var i := frameIndex.value;
      delivered := delivered + [Delivery(i, outputs.value)];
      match exercise
      case Unset =>
        r := Raised(AttributeError);
      case NoneValue =>
        r := Raised(TypeError);
      case Frames(rows) =>
        if |rows| == 0 {
          r := Raised(ZeroDivisionError);
        } else {
          FrameIndexClamps(rows, frameIndex, PyMod(i + 1, |rows|) as real);
          r := SetFrameIndex(PyMod(i + 1, |rows|) as real);
        }
    }

    /** One pass of the thread's loop: prepare, predict, process. While a
        frame is selected, the frame is shown and the next one selected. */
    method Step(net: seq<real> -> SmplOutput) returns (r: Outcome)
      modifies this
      ensures old(exercise).Unset? ==> r == Done && frameIndex == old(frameIndex) && delivered == old(delivered)
      ensures old(Playing()) ==>
        r == Done && Playing() &&
        delivered == old(delivered) + [Delivery(old(frameIndex).value, net(old(exercise).rows[old(frameIndex).value]))] &&
        frameIndex == Some(NextIndex(old(frameIndex).value, |old(exercise).rows|))
      ensures exercise == old(exercise) && paused == old(paused)
    {
      var inputs := PrepareInputs();
      match inputs
      case Err(e) =>
        r := Raised(e);
      case Ok(thetas) =>
        r := ProcessOutputs(Predict(thetas, net));
    }
  }

  /** A shorter exercise assigned once frame k of a longer one was reached,
      k past the end of the shorter one, keeps the stale index k, and the
      next step's read of the frame fails. */
  method StaleIndexAfterShorterExercise(long: seq<seq<real>>, short: seq<seq<real>>, k: nat) returns (r: Result<Option<seq<real>>>)
    requires |short| <= k < |long|
    ensures r == Err(IndexError)
  {
    var t := new SmplThread();
    t.SetExercise(Some(long));
    var stored := t.SetFrameIndex(k as real);
    assert t.frameIndex == Some(k);
    t.SetExercise(Some(short));
    r := t.PrepareInputs();
  }
}
