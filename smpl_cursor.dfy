/** What the three SMPL playback threads share: the exercise they play, the
    clamping rule of their frame_index setter and the outputs of the SMPL
    network, which stays uninterpreted. */
module SmplCursor {
  import opened Common

  /** The thread's `exercise` attribute: never assigned (reading it raises
      AttributeError), assigned None, or an N x 82 array of thetas. */
  datatype Exercise = Unset | NoneValue | Frames(rows: seq<seq<real>>)

  /** The value handed to the exercise setter: None or an array. */
  function Assigned(ex: Option<seq<seq<real>>>): (r: Exercise)
    ensures r != Unset
  {
    match ex
    case None => NoneValue
    case Some(rows) => Frames(rows)
  }

  /** The vertices and keypoints the SMPL network returns for one frame. */
  datatype SmplOutput = SmplOutput(vertices: seq<seq<real>>, keypoints: seq<seq<real>>)

  /** One call of output_fn by a playback thread: the frame's index and the
      network's output for it. */
  datatype Delivery = Delivery(index: int, output: SmplOutput)

  /** The frame_index setter: a negative value stores 0 before the exercise
      is looked at; otherwise reading an unset exercise raises
      AttributeError, `len(None)` raises TypeError, which is caught and
      leaves the index as it was, a value past the end stores the last
      index, and any other value is truncated with int(). */
  function FrameIndexAfter(ex: Exercise, current: Option<int>, newIndx: real): (r: Result<Option<int>>)
    ensures r.Err? <==> ex.Unset? && newIndx >= 0.0
    ensures r.Err? ==> r.error == AttributeError
    ensures ex.NoneValue? && newIndx >= 0.0 ==> r == Ok(current)
  {
    if newIndx < 0.0 then Ok(Some(0))
    else
      match ex
      case Unset => Err(AttributeError)
      case NoneValue => Ok(current)
      case Frames(rows) =>
        if newIndx >= |rows| as real then Ok(Some(|rows| - 1))
        else Ok(Some(TruncReal(newIndx)))
  }

  /** The setter is the clamp of the value's floor into [0, N - 1] for a
      non-empty exercise: the stored index always names a frame, and a
      frame index already in range is stored unchanged. */
  lemma FrameIndexClamps(rows: seq<seq<real>>, current: Option<int>, newIndx: real)
    requires |rows| > 0
    ensures FrameIndexAfter(Frames(rows), current, newIndx) ==
      Ok(Some(if newIndx.Floor < 0 then 0 else if newIndx.Floor > |rows| - 1 then |rows| - 1 else newIndx.Floor))
    ensures var i := FrameIndexAfter(Frames(rows), current, newIndx).value.value; 0 <= i < |rows|
    ensures forall k :: 0 <= k < |rows| ==> FrameIndexAfter(Frames(rows), current, k as real) == Ok(Some(k))
  {
    var n := |rows|;
    if newIndx >= 0.0 && newIndx >= n as real {
      assert newIndx.Floor >= n;
    } else if newIndx >= 0.0 {
      assert newIndx.Floor < n;
    }
  }

  /** For an empty exercise every non-negative value stores -1. */
  lemma EmptyExerciseIndex(current: Option<int>, newIndx: real)
    requires newIndx >= 0.0
    ensures FrameIndexAfter(Frames([]), current, newIndx) == Ok(Some(-1))
  {
  }

  /** The row the playback threads read, `exercise[frame_index]`: an unset
      index raises AttributeError, indexing None raises TypeError, and
      Python's negative indices count from the end. */
  function RowAt(ex: Exercise, index: Option<int>): (r: Result<seq<real>>)
    requires !ex.Unset?
    ensures ex.Frames? && index.Some? && 0 <= index.value < |ex.rows| ==> r == Ok(ex.rows[index.value])
    ensures ex.Frames? && index.Some? && index.value >= |ex.rows| ==> r == Err(IndexError)
    ensures ex.Frames? && |ex.rows| == 0 ==> r.Err?
  {
    match index
    case None => Err(AttributeError)
    case Some(i) =>
      match ex
      case NoneValue => Err(TypeError)
      case Frames(rows) => PyIndex(rows, i)
  }

  /** The predict step: no inputs give no outputs, otherwise the network's
      output for the frame's thetas. */
  function Predict(thetas: Option<seq<real>>, net: seq<real> -> SmplOutput): (r: Option<SmplOutput>)
    ensures r.Some? <==> thetas.Some?
    ensures r.Some? ==> r.value == net(thetas.value)
  {
    match thetas
    case None => None
    case Some(t) => Some(net(t))
  }

  /** The indices a playback thread delivers in k steps from `start` over an
      exercise of n frames. */
  function PlayedIndices(start: int, n: int, k: nat): (r: seq<int>)
    requires n > 0
    ensures |r| == k
  {
    if k == 0 then [] else PlayedIndices(start, n, k - 1) + [Advance(start, n, k - 1)]
  }

  /** Played from a frame in range, the j-th delivered index is
      (start + j) mod n: from frame 0 the thread shows 0, 1, ..., N - 1 and
      starts over at 0. */
  lemma {:induction false} PlayedIndicesCycle(start: int, n: int, k: nat)
    requires n > 0
    ensures forall j :: 0 <= j < k ==> PlayedIndices(start, n, k)[j] == PyMod(start + j, n)
  {
    if k > 0 {
      PlayedIndicesCycle(start, n, k - 1);
      AdvanceIsMod(start, n, k - 1);
    }
  }
}
