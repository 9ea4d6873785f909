/** Helpers shared by the whole model: optional values, results carrying the
    Python exception a call raises, and the few Python list and number
    operations the modelled code relies on. */
module Common {

  datatype Option<T> = None | Some(value: T)

  /** The Python exceptions that the modelled code raises, catches or lets escape. */
  datatype PyError =
    | KeyError
    | ValueError
    | TypeError
    | IndexError
    | AttributeError
    | ZeroDivisionError
    | FileNotFoundError
    | UnboundLocalError
    | StopIteration

  datatype Result<T> = Ok(value: T) | Err(error: PyError)
  {
    predicate IsFailure()
    {
      Err?
    }

    function PropagateFailure<U>(): Result<U>
      requires Err?
    {
      Err(error)
    }

    function Extract(): T
      requires Ok?
    {
      value
    }
  }

  /** A call that returns nothing useful either completes or raises. */
  datatype Outcome = Done | Raised(error: PyError)

  function Sum(s: seq<real>): real
  {
    if s == [] then 0.0 else Sum(s[..|s| - 1]) + s[|s| - 1]
  }

  /** numpy's mean of a non-empty slice. */
  function Mean(s: seq<real>): real
    requires |s| > 0
  {
    Sum(s) / |s| as real
  }

  lemma {:induction false} SumConstant(s: seq<real>, c: real)
    requires forall i :: 0 <= i < |s| ==> s[i] == c
    ensures Sum(s) == |s| as real * c
  {
    if s != [] {
      SumConstant(s[..|s| - 1], c);
    }
  }

  /** The mean of a slice lies between its smallest and its largest element. */
  lemma {:induction false} SumBounds(s: seq<real>, lo: real, hi: real)
    requires forall i :: 0 <= i < |s| ==> lo <= s[i] <= hi
    ensures |s| as real * lo <= Sum(s) <= |s| as real * hi
  {
    if s != [] {
      SumBounds(s[..|s| - 1], lo, hi);
    }
  }

  lemma MeanBounds(s: seq<real>, lo: real, hi: real)
    requires |s| > 0
    requires forall i :: 0 <= i < |s| ==> lo <= s[i] <= hi
    ensures lo <= Mean(s) <= hi
  {
    SumBounds(s, lo, hi);
    var n := |s| as real;
    assert n * lo <= Sum(s) <= n * hi;
    assert Sum(s) / n >= lo by {
      assert Sum(s) >= n * lo;
    }
    assert Sum(s) / n <= hi by {
      assert Sum(s) <= n * hi;
    }
  }

  lemma MeanConstant(s: seq<real>, c: real)
    requires |s| > 0
    requires forall i :: 0 <= i < |s| ==> s[i] == c
    ensures Mean(s) == c
  {
    SumConstant(s, c);
    var n := |s| as real;
    assert Sum(s) == n * c;
    assert (n * c) / n == c;
  }

  /** Index of the first occurrence of x in s, if any (Python's list.index). */
  function IndexOf<T(==)>(s: seq<T>, x: T): (r: Option<nat>)
    ensures r.None? <==> x !in s
    ensures r.Some? ==> r.value < |s| && s[r.value] == x && x !in s[..r.value]
  {
    if s == [] then None
    else if s[0] == x then Some(0)
    else
      match IndexOf(s[1..], x)
      case None => None
      case Some(k) => assert s[1..][..k] == s[1..k + 1]; Some(k + 1)
  }

  /** Python's list.remove: drops the first occurrence, ValueError when absent. */
  function RemoveFirst<T(==)>(s: seq<T>, x: T): (r: Result<seq<T>>)
  {
    match IndexOf(s, x)
    case None => Err(ValueError)
    case Some(k) => Ok(s[..k] + s[k + 1..])
  }

  lemma RemoveFirstSpec<T>(s: seq<T>, x: T)
    ensures RemoveFirst(s, x).Err? <==> x !in s
    ensures RemoveFirst(s, x).Ok? ==>
      |RemoveFirst(s, x).value| == |s| - 1 &&
      multiset(RemoveFirst(s, x).value) == multiset(s) - multiset{x}
  {
    match IndexOf(s, x)
    case None =>
    case Some(k) =>
      assert s == s[..k] + [x] + s[k + 1..];
      calc {
        multiset(s);
        multiset(s[..k]) + multiset{x} + multiset(s[k + 1..]);
      }
  }

  /** Python's `int(a / b)`: true division, then truncation toward zero. */
  function TruncDiv(a: int, b: int): int
    requires b > 0
  {
    if a >= 0 then a / b else -((-a) / b)
  }

  /** Python's `%` with a positive divisor: the remainder of floor division,
      which for b > 0 is Dafny's Euclidean `%`. */
  function PyMod(a: int, b: int): (r: int)
    requires b > 0
    ensures 0 <= r < b
    ensures 0 <= a < b ==> r == a
    ensures -b <= a < 0 ==> r == a + b
    ensures b <= a < 2 * b ==> r == a - b
  {
    a % b
  }

  /** Python's `int(x)` on a float: truncation toward zero. */
  function TruncReal(x: real): (r: int)
    ensures x >= 0.0 ==> r as real <= x < r as real + 1.0
    ensures x < 0.0 ==> r as real - 1.0 < x <= r as real
  {
    if x >= 0.0 then x.Floor else -((-x).Floor)
  }

  /** Python's `s[i]` on a list: negative indices count from the end. */
  function PyIndex<T>(s: seq<T>, i: int): (r: Result<T>)
    ensures r.Ok? <==> -|s| <= i < |s|
    ensures 0 <= i < |s| ==> r == Ok(s[i])
    ensures -|s| <= i < 0 ==> r == Ok(s[|s| + i])
  {
    if 0 <= i < |s| then Ok(s[i])
    else if -|s| <= i < 0 then Ok(s[|s| + i])
    else Err(IndexError)
  }

  // Cyclic indices

  /** The index before i in a cycle of n, wrapping around. */
  function PrevIndex(i: int, n: int): (r: int)
    requires n > 0
    ensures 0 <= r < n
  {
    PyMod(i - 1, n)
  }

  /** The index after i in a cycle of n, wrapping around. */
  function NextIndex(i: int, n: int): (r: int)
    requires n > 0
    ensures 0 <= r < n
  {
    PyMod(i + 1, n)
  }

  /** Stepping forward and then back, or back and then forward, returns to
      the index one started from. */
  lemma CycleInverse(i: int, n: int)
    requires 0 <= i < n
    ensures PrevIndex(NextIndex(i, n), n) == i
    ensures NextIndex(PrevIndex(i, n), n) == i
  {
  }

  /** k steps forward from i. */
  function Advance(i: int, n: int, k: nat): (r: int)
    requires n > 0
    ensures 0 <= r < n
  {
    if k == 0 then PyMod(i, n) else NextIndex(Advance(i, n, k - 1), n)
  }

  lemma ModStep(a: int, n: int)
    requires n > 0
    ensures PyMod(PyMod(a, n) + 1, n) == PyMod(a + 1, n)
  {
    var q := a / n;
    var r := a % n;
    assert a == q * n + r;
    assert a + 1 == q * n + (r + 1);
    if r + 1 < n {
      assert (a + 1) / n == q && (a + 1) % n == r + 1 by {
        DivModUnique(a + 1, n, q, r + 1);
      }
    } else {
      assert a + 1 == (q + 1) * n + 0;
      assert (a + 1) % n == 0 by {
        DivModUnique(a + 1, n, q + 1, 0);
      }
    }
  }

  /** Reducing before adding changes nothing modulo n. */
  lemma {:induction false} ModAdd(a: int, b: nat, n: int)
    requires n > 0
    ensures PyMod(PyMod(a, n) + b, n) == PyMod(a + b, n)
  {
    if b > 0 {
      ModAdd(a, b - 1, n);
      ModStep(PyMod(a, n) + b - 1, n);
      ModStep(a + b - 1, n);
    }
  }

  lemma MulAtLeast(d: int, n: int)
    requires d >= 1 && n > 0
    ensures d * n >= n
  {
  }

  /** Euclidean division is determined by quotient and remainder. */
  lemma DivModUnique(a: int, n: int, q: int, r: int)
    requires n > 0 && 0 <= r < n && a == q * n + r
    ensures a / n == q && a % n == r
  {
    var q', r' := a / n, a % n;
    assert a == q' * n + r';
    assert (q - q') * n == r' - r;
    if q > q' {
      MulAtLeast(q - q', n);
    } else if q < q' {
      MulAtLeast(q' - q, n);
    }
  }

  /** Stepping forward k times lands on (i + k) mod n, so n steps visit
      every index once and come back to the first. */
  lemma {:induction false} AdvanceIsMod(i: int, n: int, k: nat)
    requires n > 0
    ensures Advance(i, n, k) == PyMod(i + k, n)
  {
    if k > 0 {
      AdvanceIsMod(i, n, k - 1);
      ModStep(i + k - 1, n);
    }
  }

}
