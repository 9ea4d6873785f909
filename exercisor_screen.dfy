/** The smoothing step of the exercisor screen (exercisor/exercisor.py): every
    exercise loaded at start-up is smoothed once, in place, with a window of
    ten frames, by the same moving average as the editing utilities. */
module ExercisorScreen {
  import opened ProcessThetas

  /** The window the screen smooths every loaded exercise with. */
  const LoadWindow: int := 10

  /** ExercisorScreen._smooth_thetas: smooths the argument in place and hands
      back that very array. */
  method SmoothExerciseThetas(thetas: array2<real>, window: int) returns (r: array2<real>)
    requires thetas.Length1 == ThetaParams && thetas.Length0 >= 2 && window >= 2
    modifies thetas
    ensures r == thetas
    ensures Rows(thetas) == Smooth(old(Rows(thetas)), window)
  {
    SmoothThetas(thetas, window);
    r := thetas;
  }

  /** The start-up loop: each exercise of the dictionary is replaced by its
      smoothed self, so the dictionary keeps its keys and arrays and every
      array is smoothed exactly once. */
  method SmoothLoadedExercises(exercises: map<string, array2<real>>)
    requires forall k :: k in exercises ==>
      exercises[k].Length1 == ThetaParams && exercises[k].Length0 >= 2
    requires forall k1, k2 :: k1 in exercises && k2 in exercises && k1 != k2 ==>
      exercises[k1] != exercises[k2]
    modifies exercises.Values
    ensures forall k {:trigger Rows(exercises[k])} :: k in exercises ==>
      Rows(exercises[k]) == Smooth(old(Rows(exercises[k])), LoadWindow)
  {
    var todo := exercises.Keys;
    while todo != {}
      invariant todo <= exercises.Keys
      invariant forall k {:trigger Rows(exercises[k])} :: k in exercises && k !in todo ==>
        Rows(exercises[k]) == Smooth(old(Rows(exercises[k])), LoadWindow)
      invariant forall k {:trigger Rows(exercises[k])} :: k in todo ==> Rows(exercises[k]) == old(Rows(exercises[k]))
      decreases |todo|
    {
      var name :| name in todo;
      var smoothed := SmoothExerciseThetas(exercises[name], LoadWindow);
      todo := todo - {name};
    }
  }
}
