/** The progress counter of an exercise (widgets/exercisor/play/progress_counter.py):
    a repetition or timer counter with a circular progress bar whose label
    shows the count, or minutes and seconds in timer mode, and a stop
    callback fired when the count reaches its end. Property observers fire
    only when a value changes, as Kivy dispatches them. */
module ProgressCounting {
  import opened Common

  datatype Mode = Repetition | Timer

  // ---------------------------------------------------------------------------
  // Label text
  // ---------------------------------------------------------------------------

  predicate IsDigit(c: char)
  {
    '0' <= c <= '9'
  }

  predicate AllDigits(s: string)
  {
    forall i :: 0 <= i < |s| ==> IsDigit(s[i])
  }

  function Digit(d: nat): (c: char)
    requires d < 10
    ensures IsDigit(c)
  {
    ('0' as int + d) as char
  }

  function DigitValue(c: char): nat
    requires IsDigit(c)
  {
    c as int - '0' as int
  }

  /** `str(n)` for a non-negative integer. */
  function NatToDecimal(n: nat): (s: string)
    ensures |s| >= 1 && AllDigits(s)
  {
    if n < 10 then [Digit(n)] else NatToDecimal(n / 10) + [Digit(n % 10)]
  }

  /** The number a string of decimal digits denotes. */
  function DecimalValue(s: string): nat
    requires AllDigits(s)
  {
    if s == [] then 0 else DecimalValue(s[..|s| - 1]) * 10 + DigitValue(s[|s| - 1])
  }

  /** Printing a count and reading it back gives the count. */
  lemma {:induction false} DecimalRoundTrip(n: nat)
    ensures DecimalValue(NatToDecimal(n)) == n
  {
    if n >= 10 {
      DecimalRoundTrip(n / 10);
      var s := NatToDecimal(n);
      assert s[..|s| - 1] == NatToDecimal(n / 10);
    }
  }

  lemma {:induction false} LeadingZeros(k: nat, s: string)
    requires AllDigits(s)
    ensures AllDigits(Zeros(k) + s) && DecimalValue(Zeros(k) + s) == DecimalValue(s)
    decreases |s|
  {
    if s != [] {
      var t := Zeros(k) + s;
      assert t[..|t| - 1] == Zeros(k) + s[..|s| - 1];
      LeadingZeros(k, s[..|s| - 1]);
    } else {
      assert Zeros(k) + s == Zeros(k);
      ZerosValue(k);
    }
  }

  lemma {:induction false} ZerosValue(k: nat)
    ensures AllDigits(Zeros(k)) && DecimalValue(Zeros(k)) == 0
  {
    if k > 0 {
      assert Zeros(k)[..k - 1] == Zeros(k - 1);
      ZerosValue(k - 1);
    }
  }

  /** `str(v)` for any integer. */
  function IntToString(v: int): string
  {
    if v < 0 then "-" + NatToDecimal(-v) else NatToDecimal(v)
  }

  function Zeros(k: nat): (s: string)
    ensures |s| == k
  {
    seq(k, i => '0')
  }

  /** `s.zfill(width)`: zeros after a leading sign, up to the width. */
  function ZFill(s: string, width: nat): (r: string)
    ensures |r| == if |s| >= width then |s| else width
  {
    if |s| >= width then s
    else if |s| > 0 && (s[0] == '-' || s[0] == '+') then [s[0]] + Zeros(width - |s|) + s[1..]
    else Zeros(width - |s|) + s
  }

  /** The timer label: `int(v / 60)`, a colon, and `v % 60` padded to two
      digits. */
  function TimerLabel(v: int): string
  {
    IntToString(TruncDiv(v, 60)) + ":" + ZFill(IntToString(PyMod(v, 60)), 2)
  }

  /** CircularProgressBar.set_value's text: minutes and seconds in timer
      mode, the plain count otherwise. */
  function LabelText(mode: Mode, v: int): string
  {
    if mode == Timer then TimerLabel(v) else IntToString(v)
  }

  /** A timer label of a non-negative count reads back as that count: the
      minutes before the colon and exactly two digits of seconds after it. */
  lemma TimerLabelRoundTrip(v: nat)
    ensures var l := TimerLabel(v);
      |l| >= 4 && l[|l| - 3] == ':' && AllDigits(l[..|l| - 3]) && AllDigits(l[|l| - 2..]) &&
      DecimalValue(l[..|l| - 3]) * 60 + DecimalValue(l[|l| - 2..]) == v
  {
    var minutes, seconds := v / 60, v % 60;
    var m := NatToDecimal(minutes);
    var s := NatToDecimal(seconds);
    DecimalRoundTrip(minutes);
    DecimalRoundTrip(seconds);
    var padded := ZFill(s, 2);
    assert |s| <= 2 by {
      if seconds >= 10 {
        assert NatToDecimal(seconds / 10) == [Digit(seconds / 10)];
      }
    }
    assert AllDigits(padded) && DecimalValue(padded) == seconds by {
      if |s| < 2 {
        LeadingZeros(2 - |s|, s);
      }
    }
    var l := TimerLabel(v);
    assert l == m + ":" + padded;
    assert l[..|l| - 3] == m;
    assert l[|l| - 2..] == padded;
  }

  /** A plain count reads back as itself; a negative one is its magnitude
      after a minus sign. */
  lemma CountLabelRoundTrip(v: int)
    ensures v >= 0 ==> AllDigits(LabelText(Repetition, v)) && DecimalValue(LabelText(Repetition, v)) == v
    ensures v < 0 ==> (LabelText(Repetition, v)[0] == '-' &&
      AllDigits(LabelText(Repetition, v)[1..]) && DecimalValue(LabelText(Repetition, v)[1..]) == -v)
  {
    if v >= 0 {
      DecimalRoundTrip(v);
    } else {
      DecimalRoundTrip(-v);
      assert LabelText(Repetition, v)[1..] == NatToDecimal(-v);
    }
  }

  /** The value Kivy's ProgressBar keeps for an assignment: clamped into
      [0, max], and 0 when the maximum is negative. */
  function BarValue(v: int, max: int): (r: int)
    ensures 0 <= r && (max >= 0 ==> r <= max)
    ensures max >= 0 && 0 <= v <= max ==> r == v
    ensures v <= 0 ==> r == 0
    ensures max >= 0 && v >= max ==> r == max
  {
    if v < 0 || max < 0 then 0 else if v > max then max else v
  }

  /** Whatever count is assigned, the bar's label is the label of a count
      in [0, max], which reads back as that count: a countdown that goes
      on past zero shows "0:00" in timer mode and "0" otherwise. */
  lemma ShownCountReadsBack(v: int, max: int)
    ensures var shown := BarValue(v, max);
      AllDigits(LabelText(Repetition, shown)) && DecimalValue(LabelText(Repetition, shown)) == shown
    ensures v <= 0 ==> LabelText(Timer, BarValue(v, max)) == "0:00" && LabelText(Repetition, BarValue(v, max)) == "0"
  {
    CountLabelRoundTrip(BarValue(v, max));
    if v <= 0 {
      assert NatToDecimal(0) == "0";
      assert ZFill("0", 2) == "00";
    }
  }

  // ---------------------------------------------------------------------------
  // The progress arc
  // ---------------------------------------------------------------------------

  /** The arc CircularProgressBar.draw adds: `(value - min) / (max - min)`
      of a full turn, drawn only when that fraction is positive; equal
      bounds divide by zero. */
  function ArcSweep(value: real, lo: real, hi: real): (r: Result<Option<real>>)
    ensures r.Err? <==> lo == hi
  {
    if hi == lo then Err(ZeroDivisionError)
    else
      var normalised := (value - lo) / (hi - lo);
      if normalised > 0.0 then Ok(Some(normalised * 360.0)) else Ok(None)
  }

  /** Within ordered bounds the arc is drawn exactly when the value is past
      the lower bound, and it sweeps at most a full turn. */
  lemma ArcSweepSpec(value: real, lo: real, hi: real)
    requires lo < hi && lo <= value <= hi
    ensures ArcSweep(value, lo, hi).Ok?
    ensures ArcSweep(value, lo, hi).value.Some? <==> value > lo
    ensures ArcSweep(value, lo, hi).value.Some? ==> 0.0 < ArcSweep(value, lo, hi).value.value <= 360.0
  {
    var d := hi - lo;
    assert (value - lo) / d <= 1.0 by {
      assert value - lo <= d;
    }
    if value > lo {
      assert (value - lo) / d > 0.0;
    } else {
      assert (value - lo) / d == 0.0;
    }
  }

  // ---------------------------------------------------------------------------
  // The widgets
  // ---------------------------------------------------------------------------

  /** The circular bar: its value, its maximum and its label text. The
      value always lies in [0, max] once the maximum is non-negative. */
  class CircularProgressBar {
    const mode: Mode
    var value: int
    var max: int
    var text: string

    constructor (m: Mode, maxValue: int)
      ensures mode == m && value == 0 && max == maxValue && text == "0"
    {
      mode := m;
      value := 0;
      max := maxValue;
      text := "0";
    }

    /** set_value: assigns the value, which the bar clamps into [0, max],
        and writes the label of the value the bar then holds. */
    method SetValue(v: int)
      modifies this
      ensures value == BarValue(v, old(max)) && text == LabelText(mode, value) && max == old(max)
    {
      value := BarValue(v, max);
      text := LabelText(mode, value);
    }
  }

  /** Whether on_counter calls the stop action for a count. */
  predicate StopsAt(mode: Mode, count: int, minCount: int, maxCount: int)
  {
    (mode == Repetition && count == maxCount) || (mode == Timer && count == minCount)
  }

  class ProgressCounter {
    const bar: CircularProgressBar
    var mode: Mode
    var counter: int
    var minCount: int
    var maxCount: int
    /** The countdown events scheduled so far, in order, each still active
        or cancelled; _timer_event is the last one. */
    var timers: seq<bool>
    /** How often stop_action was called. */
    var stops: nat

    /** The countdown is running exactly in timer mode, and at most the
        last event scheduled is active. */
    predicate TimerInvariant()
      reads this
    {
      (forall i :: 0 <= i < |timers| - 1 ==> !timers[i]) &&
      (mode == Timer <==> |timers| > 0 && timers[|timers| - 1])
    }

    constructor (b: CircularProgressBar)
      ensures bar == b && mode == Repetition && counter == -1 && minCount == 1 && maxCount == 10
      ensures timers == [] && stops == 0 && TimerInvariant()
    {
      bar := b;
      mode := Repetition;
      counter := -1;
      minCount := 1;
      maxCount := 10;
      timers := [];
      stops := 0;
    }

    /** Assigning `mode`; on_mode runs when it changes: timer mode counts
        down to 0 with a new one-second event, repetition mode counts up
        from 1 and cancels the last event scheduled. */
    method SetMode(m: Mode)
      requires TimerInvariant()
      modifies this
      ensures TimerInvariant() && mode == m
      ensures m == old(mode) ==> minCount == old(minCount) && timers == old(timers)
      ensures m != old(mode) && m == Timer ==> minCount == 0 && timers == old(timers) + [true]
      ensures m != old(mode) && m == Repetition ==> minCount == 1 && |timers| == |old(timers)|
      ensures counter == old(counter) && maxCount == old(maxCount) && stops == old(stops)
    {
      if m == mode {
        return;
      }
      mode := m;
      if m == Timer {
        minCount := 0;
        timers := timers + [true];
      } else {
        minCount := 1;
        if |timers| > 0 {
          timers := timers[|timers| - 1 := false];
        }
      }
    }

    /** Assigning `counter`; on_counter runs when it changes: the bar shows
        the new count and the stop action fires when the count is exactly
        the end of the mode's range. */
    method SetCounter(v: int)
      modifies this, bar
      ensures counter == v
      ensures v == old(counter) ==> stops == old(stops) && bar.value == old(bar.value) && bar.text == old(bar.text)
      ensures v != old(counter) ==>
        bar.value == BarValue(v, old(bar.max)) && bar.text == LabelText(bar.mode, bar.value) &&
        stops == old(stops) + (if StopsAt(mode, v, minCount, maxCount) then 1 else 0)
      ensures mode == old(mode) && minCount == old(minCount) && maxCount == old(maxCount) && timers == old(timers)
      ensures bar.max == old(bar.max)
    {
      if v == counter {
        return;
      }
      counter := v;
      bar.SetValue(v);
      if StopsAt(mode, counter, minCount, maxCount) {
        stops := stops + 1;
      }
    }

    /** Assigning `max_count`; on_max_count copies it to the bar. */
    method SetMaxCount(m: int)
      modifies this, bar
      ensures maxCount == m && (m != old(maxCount) ==> bar.max == m)
      ensures m == old(maxCount) ==> bar.max == old(bar.max)
      ensures bar.value == old(bar.value) && bar.text == old(bar.text)
      ensures mode == old(mode) && counter == old(counter) && minCount == old(minCount)
      ensures timers == old(timers) && stops == old(stops)
    {
      if m == maxCount {
        return;
      }
      maxCount := m;
      bar.max := m;
    }

    /** _countdown: one less. */
    method Countdown()
      modifies this, bar
      ensures counter == old(counter) - 1
      ensures stops == old(stops) + (if StopsAt(mode, counter, minCount, maxCount) then 1 else 0)
      ensures mode == old(mode) && minCount == old(minCount) && maxCount == old(maxCount) && timers == old(timers)
    {
      SetCounter(counter - 1);
    }
  }

  /** How many of k countdowns from c land exactly on the end count. */
  function CountdownStops(c: int, end: int, k: nat): nat
  {
    if k == 0 then 0 else CountdownStops(c, end, k - 1) + (if c - k == end then 1 else 0)
  }

  /** A countdown from c toward an end below it fires the stop action once,
      on the step that reaches the end, and never again as the count keeps
      falling past it; from at or below the end it never fires. */
  lemma {:induction false} CountdownStopsOnce(c: int, end: int, k: nat)
    ensures CountdownStops(c, end, k) == if end < c && c - end <= k then 1 else 0
  {
    if k > 0 {
      CountdownStopsOnce(c, end, k - 1);
    }
  }
}
