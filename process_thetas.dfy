/** Editing of recorded exercises: the moving-average smoothing of the pose
    parameters and the "fixed" and "range" joint-angle rules
    (widgets/exercisor/utils/process_thetas.py).

    An exercise is an N x 82 matrix: per frame, 72 pose parameters (24 joints,
    one axis-angle triple each) followed by 10 shape coefficients. */
module ProcessThetas {
  import opened Common

  /** Pose parameters per frame: 24 joints times 3 axis-angle components. */
  const PoseParams: nat := 72
  /** All parameters per frame: the pose followed by 10 shape coefficients. */
  const ThetaParams: nat := 82
  /** math.pi, written as the decimal literal Python prints for it. */
  const Pi: real := 3.141592653589793

  type Matrix = seq<seq<real>>

  predicate IsMatrix(m: Matrix, cols: nat)
  {
    forall i :: 0 <= i < |m| ==> |m[i]| == cols
  }

  /** The contents of a numpy array, row by row. */
  ghost function Rows(a: array2<real>): (m: Matrix)
    reads a
    ensures |m| == a.Length0 && IsMatrix(m, a.Length1)
    ensures forall i, j :: 0 <= i < a.Length0 && 0 <= j < a.Length1 ==> m[i][j] == a[i, j]
  {
    seq(a.Length0, i requires 0 <= i < a.Length0 reads a =>
      seq(a.Length1, j requires 0 <= j < a.Length1 reads a => a[i, j]))
  }

  lemma SameMatrix(x: Matrix, y: Matrix, cols: nat)
    requires |x| == |y| && IsMatrix(x, cols) && IsMatrix(y, cols)
    requires forall i, j :: 0 <= i < |x| && 0 <= j < cols ==> x[i][j] == y[i][j]
    ensures x == y
  {
    forall i | 0 <= i < |x|
      ensures x[i] == y[i]
    {
      assert forall j :: 0 <= j < cols ==> x[i][j] == y[i][j];
    }
  }

  // ---------------------------------------------------------------------------
  // Smoothing (smooth_thetas)
  // ---------------------------------------------------------------------------

  /** The two halves of the averaging window: `int(window / 2)` to the left
      and, for an odd window, one more to the right. */
  function HalfWindows(window: int): (lr: (int, int))
    ensures window >= 0 ==> lr.0 + lr.1 == window && lr.0 <= lr.1 <= lr.0 + 1
    ensures window >= 0 ==> lr.0 == window / 2
  {
    var left := TruncDiv(window, 2);
    var right := if PyMod(window, 2) == 0 then left else left + 1;
    (left, right)
  }

  /** First row of the window of frame nf, clamped at 0. */
  function WindowStart(nf: int, left: int): int
  {
    if nf - left >= 0 then nf - left else 0
  }

  /** Exclusive end of the window of frame nf, clamped at n - 1. */
  function WindowEnd(nf: int, right: int, n: int): int
  {
    if nf + right < n then nf + right else n - 1
  }

  /** With at least two frames and a window of at least two, every window is a
      non-empty run of rows that contains no row past nf + right, never
      reaches the last row, and is no longer than the window. */
  lemma WindowBounds(n: int, window: int, nf: int)
    requires n >= 2 && window >= 2 && 0 <= nf < n
    ensures var (left, right) := HalfWindows(window);
      var lb, rb := WindowStart(nf, left), WindowEnd(nf, right, n);
      0 <= lb <= nf && lb < rb <= n - 1 && rb <= nf + right && rb - lb <= window
  {
  }

  /** Column c of rows lo .. hi-1. */
  function Column(m: Matrix, c: nat, lo: int, hi: int): (col: seq<real>)
    requires 0 <= lo <= hi <= |m|
    requires forall i :: lo <= i < hi ==> c < |m[i]|
    ensures |col| == hi - lo
    ensures forall k :: 0 <= k < hi - lo ==> col[k] == m[lo + k][c]
  {
    seq(hi - lo, k requires 0 <= k < hi - lo => m[lo + k][c])
  }

  predicate SmoothPre(m: Matrix, window: int)
  {
    |m| >= 2 && window >= 2 && IsMatrix(m, ThetaParams)
  }

  /** Row nf after its pose columns below kid have been replaced by the mean
      of their window in m; every other entry is m's. */
  function SmoothRowUpTo(m: Matrix, window: int, nf: nat, kid: nat): (r: Matrix)
    requires SmoothPre(m, window) && nf < |m| && kid <= PoseParams
    ensures |r| == |m| && IsMatrix(r, ThetaParams)
  {
    var (left, right) := HalfWindows(window);
    var lb, rb := WindowStart(nf, left), WindowEnd(nf, right, |m|);
    WindowBounds(|m|, window, nf);
    m[nf := seq(ThetaParams, c requires 0 <= c < ThetaParams =>
      if c < kid then Mean(Column(m, c, lb, rb)) else m[nf][c])]
  }

  lemma RowUpToEntry(m: Matrix, window: int, nf: nat, kid: nat, i: int, j: int)
    requires SmoothPre(m, window) && nf < |m| && kid <= PoseParams
    requires 0 <= i < |m| && 0 <= j < ThetaParams
    ensures var (left, right) := HalfWindows(window);
      var lb, rb := WindowStart(nf, left), WindowEnd(nf, right, |m|);
      0 <= lb < rb <= |m| &&
      SmoothRowUpTo(m, window, nf, kid)[i][j] ==
        if i == nf && j < kid then Mean(Column(m, j, lb, rb)) else m[i][j]
  {
    WindowBounds(|m|, window, nf);
  }

  /** The matrix after the outer loop of smooth_thetas has handled rows
      0 .. nf-1, in increasing order and in place: each row averages rows that
      are already smoothed below it and still raw from it on. Rows from nf on
      and the shape columns are untouched. */
  function SmoothedUpTo(m: Matrix, window: int, nf: nat): (r: Matrix)
    requires SmoothPre(m, window) && nf <= |m|
    ensures |r| == |m| && IsMatrix(r, ThetaParams)
    ensures forall i :: nf <= i < |m| ==> r[i] == m[i]
    ensures forall i, c :: 0 <= i < |m| && PoseParams <= c < ThetaParams ==> r[i][c] == m[i][c]
    decreases nf
  {
    if nf == 0 then m
    else SmoothRowUpTo(SmoothedUpTo(m, window, nf - 1), window, nf - 1, PoseParams)
  }

  /** What smooth_thetas leaves in its argument. */
  function Smooth(m: Matrix, window: int): Matrix
    requires SmoothPre(m, window)
  {
    SmoothedUpTo(m, window, |m|)
  }

  lemma {:induction false} RowSettled(m: Matrix, window: int, i: nat, nf: nat)
    requires SmoothPre(m, window) && i < nf <= |m|
    ensures SmoothedUpTo(m, window, nf)[i] == SmoothedUpTo(m, window, i + 1)[i]
    decreases nf
  {
    if nf > i + 1 {
      RowSettled(m, window, i, nf - 1);
    }
  }

  /** Smoothing keeps the frame count and the 82 columns, leaves the 10 shape
      coefficients alone, and sets pose entry (i, c) to the mean of column c
      over rows lb .. rb-1 of the matrix in which rows below i are already
      smoothed and rows from i on are still the input's. */
  lemma SmoothedEntry(m: Matrix, window: int, i: nat, c: nat)
    requires SmoothPre(m, window) && i < |m| && c < PoseParams
    ensures var (left, right) := HalfWindows(window);
      var lb, rb := WindowStart(i, left), WindowEnd(i, right, |m|);
      var before := SmoothedUpTo(m, window, i);
      0 <= lb < rb <= |m| - 1 &&
      (forall k :: i <= k < |m| ==> before[k] == m[k]) &&
      Smooth(m, window)[i][c] == Mean(Column(before, c, lb, rb))
  {
    RowSettled(m, window, i, |m|);
    WindowBounds(|m|, window, i);
  }

  /** A pose column that is constant over all frames stays constant. */
  lemma {:induction false} SmoothConstantColumn(m: Matrix, window: int, c: nat, v: real, nf: nat)
    requires SmoothPre(m, window) && c < PoseParams && nf <= |m|
    requires forall i :: 0 <= i < |m| ==> m[i][c] == v
    ensures forall i :: 0 <= i < |m| ==> SmoothedUpTo(m, window, nf)[i][c] == v
    decreases nf
  {
    if nf > 0 {
      SmoothConstantColumn(m, window, c, v, nf - 1);
      var s := SmoothedUpTo(m, window, nf - 1);
      var (left, right) := HalfWindows(window);
      WindowBounds(|m|, window, nf - 1);
      var col := Column(s, c, WindowStart(nf - 1, left), WindowEnd(nf - 1, right, |m|));
      MeanConstant(col, v);
      forall i | 0 <= i < |m|
        ensures SmoothedUpTo(m, window, nf)[i][c] == v
      {
        RowUpToEntry(s, window, nf - 1, PoseParams, i, c);
      }
    }
  }

  /** Averaging never leaves the range of the input: if every pose value of
      column c lies in [lo, hi], so does every smoothed value. */
  lemma {:induction false} SmoothStaysInRange(m: Matrix, window: int, c: nat, lo: real, hi: real, nf: nat)
    requires SmoothPre(m, window) && c < PoseParams && nf <= |m|
    requires forall i :: 0 <= i < |m| ==> lo <= m[i][c] <= hi
    ensures forall i :: 0 <= i < |m| ==> lo <= SmoothedUpTo(m, window, nf)[i][c] <= hi
    decreases nf
  {
    if nf > 0 {
      SmoothStaysInRange(m, window, c, lo, hi, nf - 1);
      var s := SmoothedUpTo(m, window, nf - 1);
      var (left, right) := HalfWindows(window);
      WindowBounds(|m|, window, nf - 1);
      var col := Column(s, c, WindowStart(nf - 1, left), WindowEnd(nf - 1, right, |m|));
      MeanBounds(col, lo, hi);
      forall i | 0 <= i < |m|
        ensures lo <= SmoothedUpTo(m, window, nf)[i][c] <= hi
      {
        RowUpToEntry(s, window, nf - 1, PoseParams, i, c);
      }
    }
  }

  /** Column c of rows lo .. hi-1 of the array, as numpy's slice reads it. */
  function ArrayColumn(a: array2<real>, c: nat, lo: int, hi: int): (col: seq<real>)
    reads a
    requires 0 <= lo <= hi <= a.Length0 && c < a.Length1
    ensures |col| == hi - lo
    ensures forall k :: 0 <= k < hi - lo ==> col[k] == a[lo + k, c]
  {
    seq(hi - lo, k requires 0 <= k < hi - lo reads a => a[lo + k, c])
  }

  /** The new value of pose entry (nf, c): the mean of column c over the
      window of frame nf in s. */
  function WindowMean(s: Matrix, window: int, nf: nat, c: nat): real
    requires SmoothPre(s, window) && nf < |s| && c < ThetaParams
  {
    var (left, right) := HalfWindows(window);
    WindowBounds(|s|, window, nf);
    Mean(Column(s, c, WindowStart(nf, left), WindowEnd(nf, right, |s|)))
  }

  /** While row nf is being smoothed, the array still holds s in the columns
      from kid on, so the window slices it reads there are those of s. */
  lemma ColumnAgrees(thetas: array2<real>, s: Matrix, window: int, nf: nat, kid: nat, c: nat, lb: int, rb: int)
    requires SmoothPre(s, window) && nf < |s| && 0 <= kid <= c < PoseParams
    requires thetas.Length0 == |s| && thetas.Length1 == ThetaParams
    requires var (left, right) := HalfWindows(window);
      lb == WindowStart(nf, left) && rb == WindowEnd(nf, right, |s|)
    requires forall i, j :: 0 <= i < |s| && 0 <= j < ThetaParams ==>
      thetas[i, j] == if i == nf && j < kid then WindowMean(s, window, nf, j) else s[i][j]
    ensures 0 <= lb < rb <= |s|
    ensures Mean(ArrayColumn(thetas, c, lb, rb)) == WindowMean(s, window, nf, c)
  {
    WindowBounds(|s|, window, nf);
    assert ArrayColumn(thetas, c, lb, rb) == Column(s, c, lb, rb);
  }

  /** One pass of the inner loop: `thetas[nf, kid:kid+3]` becomes the mean of
      the rows lb .. rb-1 of those three columns. */
  method SmoothJoint(thetas: array2<real>, window: int, nf: nat, kid: nat, lb: int, rb: int, ghost s: Matrix)
    requires SmoothPre(s, window) && nf < |s| && kid + 3 <= PoseParams
    requires thetas.Length0 == |s| && thetas.Length1 == ThetaParams
    requires var (left, right) := HalfWindows(window);
      lb == WindowStart(nf, left) && rb == WindowEnd(nf, right, |s|)
    requires forall i, j :: 0 <= i < |s| && 0 <= j < ThetaParams ==>
      thetas[i, j] == if i == nf && j < kid then WindowMean(s, window, nf, j) else s[i][j]
    modifies thetas
    ensures forall i, j :: 0 <= i < |s| && 0 <= j < ThetaParams ==>
      thetas[i, j] == if i == nf && j < kid + 3 then WindowMean(s, window, nf, j) else s[i][j]
  {
    ColumnAgrees(thetas, s, window, nf, kid, kid, lb, rb);
    ColumnAgrees(thetas, s, window, nf, kid, kid + 1, lb, rb);
    ColumnAgrees(thetas, s, window, nf, kid, kid + 2, lb, rb);
    var m0v := Mean(ArrayColumn(thetas, kid, lb, rb));
    var m1v := Mean(ArrayColumn(thetas, kid + 1, lb, rb));
    var m2v := Mean(ArrayColumn(thetas, kid + 2, lb, rb));
    thetas[nf, kid], thetas[nf, kid + 1], thetas[nf, kid + 2] := m0v, m1v, m2v;
  }

  /** One pass of the outer loop of smooth_thetas: the pose columns of row nf,
      three at a time, get the mean of their window. */
  method SmoothFrame(thetas: array2<real>, window: int, nf: nat, ghost s: Matrix)
    requires SmoothPre(s, window) && nf < |s|
    requires thetas.Length0 == |s| && thetas.Length1 == ThetaParams
    requires forall i, j :: 0 <= i < |s| && 0 <= j < ThetaParams ==> thetas[i, j] == s[i][j]
    modifies thetas
    ensures forall i, j :: 0 <= i < |s| && 0 <= j < ThetaParams ==>
      thetas[i, j] == SmoothRowUpTo(s, window, nf, PoseParams)[i][j]
  {
    var n := thetas.Length0;
    var (left, right) := HalfWindows(window);
    var lb := WindowStart(nf, left);
    var rb := WindowEnd(nf, right, n);
    WindowBounds(n, window, nf);
    var g := 0;
    while g < PoseParams / 3
      invariant 0 <= g <= PoseParams / 3
      invariant forall i, j :: 0 <= i < n && 0 <= j < ThetaParams ==>
        thetas[i, j] == if i == nf && j < 3 * g then WindowMean(s, window, nf, j) else s[i][j]
    {
      SmoothJoint(thetas, window, nf, 3 * g, lb, rb, s);
      g := g + 1;
    }
    forall i, j | 0 <= i < n && 0 <= j < ThetaParams
      ensures thetas[i, j] == SmoothRowUpTo(s, window, nf, PoseParams)[i][j]
    {
      RowUpToEntry(s, window, nf, PoseParams, i, j);
    }
  }

  /** smooth_thetas: in-place moving average of the pose columns, frame by
      frame in increasing order. */
  method SmoothThetas(thetas: array2<real>, window: int)
    requires thetas.Length1 == ThetaParams && thetas.Length0 >= 2 && window >= 2
    modifies thetas
    ensures Rows(thetas) == Smooth(old(Rows(thetas)), window)
  {
    ghost var m0 := Rows(thetas);
    var nf := 0;
    while nf < thetas.Length0
      invariant 0 <= nf <= thetas.Length0
      invariant forall i, j :: 0 <= i < thetas.Length0 && 0 <= j < ThetaParams ==>
        thetas[i, j] == SmoothedUpTo(m0, window, nf)[i][j]
    {
      SmoothFrame(thetas, window, nf, SmoothedUpTo(m0, window, nf));
      nf := nf + 1;
    }
    SameMatrix(Rows(thetas), Smooth(m0, window), ThetaParams);
  }

  // ---------------------------------------------------------------------------
  // Joint-angle rules (apply_fixed_rule, apply_range_rule)
  // ---------------------------------------------------------------------------

  /** (math.pi * deg) / 180 */
  function Radians(deg: real): real
  {
    (Pi * deg) / 180.0
  }

  predicate HasColumn(m: Matrix, indx: int)
  {
    0 <= indx && forall i :: 0 <= i < |m| ==> indx < |m[i]|
  }

  /** The values of column indx, one per frame. */
  function ColumnOf(m: Matrix, indx: int): (col: seq<real>)
    requires HasColumn(m, indx)
  {
    seq(|m|, i requires 0 <= i < |m| => m[i][indx])
  }

  /** m with column indx replaced, frame by frame, by vals. */
  function SetColumn(m: Matrix, indx: int, vals: seq<real>): (r: Matrix)
    requires HasColumn(m, indx) && |vals| == |m|
  {
    seq(|m|, i requires 0 <= i < |m| => m[i][indx := vals[i]])
  }

  function FixedRule(m: Matrix, indx: int, rads: real): Matrix
    requires HasColumn(m, indx)
  {
    SetColumn(m, indx, seq(|m|, i => rads))
  }

  /** The comparison order of apply_range_rule: below the lower bound first. */
  function Clamp(v: real, lo: real, hi: real): real
  {
    if v < lo then lo else if v > hi then hi else v
  }

  function RangeRule(m: Matrix, indx: int, lo: real, hi: real): Matrix
    requires HasColumn(m, indx)
  {
    SetColumn(m, indx, seq(|m|, i requires 0 <= i < |m| => Clamp(m[i][indx], lo, hi)))
  }

  /** A fixed rule changes column indx alone, and to the same value in every
      frame; shape and every other entry are kept. */
  lemma FixedRuleSpec(m: Matrix, indx: int, rads: real)
    requires HasColumn(m, indx)
    ensures var r := FixedRule(m, indx, rads);
      |r| == |m| &&
      (forall i :: 0 <= i < |m| ==> |r[i]| == |m[i]| && r[i][indx] == rads) &&
      (forall i, j :: 0 <= i < |m| && 0 <= j < |m[i]| && j != indx ==> r[i][j] == m[i][j])
  {
  }

  /** A range rule clamps column indx: values below the range become the lower
      bound, values above it the upper bound, values inside are kept, and every
      other entry is unchanged. With lo <= hi the column ends inside [lo, hi]. */
  lemma RangeRuleSpec(m: Matrix, indx: int, lo: real, hi: real)
    requires HasColumn(m, indx)
    ensures var r := RangeRule(m, indx, lo, hi);
      |r| == |m| &&
      (forall i :: 0 <= i < |m| ==> |r[i]| == |m[i]|) &&
      (forall i :: 0 <= i < |m| && m[i][indx] < lo ==> r[i][indx] == lo) &&
      (forall i :: 0 <= i < |m| && lo <= m[i][indx] && hi < m[i][indx] ==> r[i][indx] == hi) &&
      (forall i :: 0 <= i < |m| && lo <= m[i][indx] <= hi ==> r[i][indx] == m[i][indx]) &&
      (lo <= hi ==> forall i :: 0 <= i < |m| ==> lo <= r[i][indx] <= hi) &&
      (forall i, j :: 0 <= i < |m| && 0 <= j < |m[i]| && j != indx ==> r[i][j] == m[i][j])
  {
  }

  /** Writing back a saved column into a matrix that differs from the saved
      one at most in that column gives the saved matrix back. */
  lemma RestoreColumn(m: Matrix, indx: int, edited: Matrix)
    requires HasColumn(m, indx) && |edited| == |m|
    requires forall i :: 0 <= i < |m| ==> |edited[i]| == |m[i]|
    requires forall i, j :: 0 <= i < |m| && 0 <= j < |m[i]| && j != indx ==> edited[i][j] == m[i][j]
    ensures SetColumn(edited, indx, ColumnOf(m, indx)) == m
  {
    var r := SetColumn(edited, indx, ColumnOf(m, indx));
    forall i | 0 <= i < |m|
      ensures r[i] == m[i]
    {
      assert |r[i]| == |m[i]|;
      forall j | 0 <= j < |m[i]|
        ensures r[i][j] == m[i][j]
      {
      }
    }
  }

  /** Writing back the previous values a fixed rule returned undoes it. */
  lemma FixedRuleUndo(m: Matrix, indx: int, rads: real)
    requires HasColumn(m, indx)
    ensures SetColumn(FixedRule(m, indx, rads), indx, ColumnOf(m, indx)) == m
  {
    FixedRuleSpec(m, indx, rads);
    RestoreColumn(m, indx, FixedRule(m, indx, rads));
  }

  /** Writing back the previous values a range rule returned undoes it. */
  lemma RangeRuleUndo(m: Matrix, indx: int, lo: real, hi: real)
    requires HasColumn(m, indx)
    ensures SetColumn(RangeRule(m, indx, lo, hi), indx, ColumnOf(m, indx)) == m
  {
    RangeRuleSpec(m, indx, lo, hi);
    RestoreColumn(m, indx, RangeRule(m, indx, lo, hi));
  }

  /** numpy's `.copy()`. */
  method CopyMatrix(a: array2<real>) returns (r: array2<real>)
    ensures fresh(r) && r.Length0 == a.Length0 && r.Length1 == a.Length1
    ensures Rows(r) == Rows(a)
  {
    r := new real[a.Length0, a.Length1];
    var i := 0;
    while i < a.Length0
      invariant 0 <= i <= a.Length0
      invariant forall p, q :: 0 <= p < i && 0 <= q < a.Length1 ==> r[p, q] == a[p, q]
    {
      var j := 0;
      while j < a.Length1
        invariant 0 <= j <= a.Length1
        invariant forall p, q :: 0 <= p < i && 0 <= q < a.Length1 ==> r[p, q] == a[p, q]
        invariant forall q :: 0 <= q < j ==> r[i, q] == a[i, q]
      {
        r[i, j] := a[i, j];
        j := j + 1;
      }
      i := i + 1;
    }
    SameMatrix(Rows(r), Rows(a), a.Length1);
  }

  /** apply_fixed_rule: a copy of thetas with column indx set to the angle in
      radians in every frame, and the column's previous values. */
  method ApplyFixedRule(thetas: array2<real>, indx: int, angles: real)
    returns (r: array2<real>, prevValues: seq<real>)
    requires 0 <= indx < thetas.Length1
    ensures fresh(r) && r.Length0 == thetas.Length0 && r.Length1 == thetas.Length1
    ensures Rows(r) == FixedRule(Rows(thetas), indx, Radians(angles))
    ensures prevValues == ColumnOf(Rows(thetas), indx)
  {
    r := CopyMatrix(thetas);
    ghost var m := Rows(thetas);
    var rads := Radians(angles);
    prevValues := [];
    var f := 0;
    while f < r.Length0
      invariant 0 <= f <= r.Length0 && r.Length0 == thetas.Length0 && r.Length1 == thetas.Length1
      invariant prevValues == ColumnOf(m, indx)[..f]
      invariant forall p, q :: 0 <= p < r.Length0 && 0 <= q < r.Length1 ==>
        r[p, q] == (if p < f && q == indx then rads else m[p][q])
    {
      prevValues := prevValues + [r[f, indx]];
      r[f, indx] := rads;
      f := f + 1;
    }
    SameMatrix(Rows(r), FixedRule(m, indx, rads), r.Length1);
  }

  /** apply_range_rule: a copy of thetas with column indx clamped into the
      range given in degrees, and the column's previous values. */
  method ApplyRangeRule(thetas: array2<real>, indx: int, lowDeg: real, highDeg: real)
    returns (r: array2<real>, prevValues: seq<real>)
    requires 0 <= indx < thetas.Length1
    ensures fresh(r) && r.Length0 == thetas.Length0 && r.Length1 == thetas.Length1
    ensures Rows(r) == RangeRule(Rows(thetas), indx, Radians(lowDeg), Radians(highDeg))
    ensures prevValues == ColumnOf(Rows(thetas), indx)
  {
    r := CopyMatrix(thetas);
    ghost var m := Rows(thetas);
    var lo, hi := Radians(lowDeg), Radians(highDeg);
    prevValues := [];
    var f := 0;
    while f < r.Length0
      invariant 0 <= f <= r.Length0 && r.Length0 == thetas.Length0 && r.Length1 == thetas.Length1
      invariant prevValues == ColumnOf(m, indx)[..f]
      invariant forall p, q :: 0 <= p < r.Length0 && 0 <= q < r.Length1 ==>
        r[p, q] == (if p < f && q == indx then Clamp(m[p][q], lo, hi) else m[p][q])
    {
      prevValues := prevValues + [r[f, indx]];
      if r[f, indx] < lo {
        r[f, indx] := lo;
      } else if r[f, indx] > hi {
        r[f, indx] := hi;
      }
      f := f + 1;
    }
    SameMatrix(Rows(r), RangeRule(m, indx, lo, hi), r.Length1);
  }
}
