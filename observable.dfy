/** The observer list of exercisor/utils/observable.py: observers are kept in
    attachment order, duplicates allowed, and notify calls each of them in
    turn, swallowing (and logging) any exception an observer raises. */
module Observing {
  import opened Common

  /** One `observer.update(subject, ...)` made by notify; `raised` records
      whether that observer raised, which notify logs and swallows. */
  datatype UpdateCall<T> = UpdateCall(observer: T, raised: bool)

  /** The calls one notify makes, in list order. */
  function UpdateCalls<T>(observers: seq<T>, raises: T -> bool): seq<UpdateCall<T>>
  {
    if observers == [] then []
    else [UpdateCall(observers[0], raises(observers[0]))] + UpdateCalls(observers[1..], raises)
  }

  /** notify reaches every observer exactly once and in list order, whatever
      the earlier ones raised. */
  lemma {:induction false} UpdateCallsInOrder<T>(observers: seq<T>, raises: T -> bool)
    ensures |UpdateCalls(observers, raises)| == |observers|
    ensures forall i :: 0 <= i < |observers| ==>
      UpdateCalls(observers, raises)[i] == UpdateCall(observers[i], raises(observers[i]))
  {
    if observers != [] {
      UpdateCallsInOrder(observers[1..], raises);
    }
  }

  /** Detaching what was just attached gives back the list before the attach
      when the observer was not there yet; otherwise the earlier occurrence
      goes and the new one stays at the end. */
  lemma AttachThenDetach<T>(observers: seq<T>, o: T)
    ensures o !in observers ==> RemoveFirst(observers + [o], o) == Ok(observers)
    ensures o in observers ==>
      RemoveFirst(observers + [o], o).Ok? &&
      RemoveFirst(observers + [o], o).value == RemoveFirst(observers, o).value + [o]
  {
    var s := observers + [o];
    var k :| IndexOf(s, o) == Some(k);
    if o !in observers {
      assert k == |observers|;
      assert s[..k] + s[k + 1..] == observers;
    } else {
      var j :| IndexOf(observers, o) == Some(j);
      assert s[j] == o;
      assert k == j;
      assert s[..k] == observers[..k];
      assert s[k + 1..] == observers[k + 1..] + [o];
    }
  }

  class Observable<T(==)> {
    var observers: seq<T>
    /** Every update call made so far, in order. */
    var updates: seq<UpdateCall<T>>

    constructor ()
      ensures observers == [] && updates == []
    {
      observers := [];
      updates := [];
    }

    /** Appends, even when the observer is already attached. */
    method Attach(observer: T)
      modifies this
      ensures observers == old(observers) + [observer]
      ensures updates == old(updates)
    {
      observers := observers + [observer];
    }

    /** Removes the first occurrence; ValueError when the observer is absent. */
    method Detach(observer: T) returns (r: Outcome)
      modifies this
      ensures RemoveFirst(old(observers), observer).Ok? ==>
        r == Done && observers == RemoveFirst(old(observers), observer).value
      ensures RemoveFirst(old(observers), observer).Err? ==>
        r == Raised(ValueError) && observers == old(observers)
      ensures updates == old(updates)
    {
      var removed := RemoveFirst(observers, observer);
      match removed
      case Ok(rest) =>
        observers := rest;
        r := Done;
      case Err(e) =>
        r := Raised(e);
    }

    /** Calls every observer in list order; `raises` tells which observers'
        update raises. The list itself is left alone. */
    method Notify(raises: T -> bool)
      modifies this
      ensures observers == old(observers)
      ensures updates == old(updates) + UpdateCalls(observers, raises)
    {
      var i := 0;
      while i < |observers|
        invariant 0 <= i <= |observers|
        invariant observers == old(observers)
        invariant updates == old(updates) + UpdateCalls(observers[..i], raises)
      {
        var observer := observers[i];
        var raised := raises(observer);
        updates := updates + [UpdateCall(observer, raised)];
        UpdateCallsAppend(observers[..i], observer, raises);
        assert observers[..i + 1] == observers[..i] + [observer];
        i := i + 1;
      }
      assert observers[..i] == observers;
    }
  }

  lemma {:induction false} UpdateCallsAppend<T>(observers: seq<T>, o: T, raises: T -> bool)
    ensures UpdateCalls(observers + [o], raises) == UpdateCalls(observers, raises) + [UpdateCall(o, raises(o))]
  {
    if observers != [] {
      assert (observers + [o])[1..] == observers[1..] + [o];
      UpdateCallsAppend(observers[1..], o, raises);
    }
  }
}
