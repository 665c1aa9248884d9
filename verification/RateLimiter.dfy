/**
 The accelerometer rate limiter (`wii_acc.c`): a sample is forwarded when at least 100 ms have passed
 since the last forwarded one. The clock is monotonic; times are milliseconds, cut down from seconds
 and nanoseconds.
 */
module RateLimiter {

  const RATE_MSEC := 100

  const EV_SYN := 0
  const EV_REL := 2
  const REL_X := 0
  const REL_Y := 1
  const REL_Z := 2

  datatype InputEvent = InputEvent(kind: nat, code: nat, value: nat)

  /** A reading of `CLOCK_MONOTONIC`. */
  datatype Tick = Tick(sec: nat, nsec: nat) {
    predicate Valid() { nsec < 1_000_000_000 }
    function Nanos(): nat { sec * 1_000_000_000 + nsec }
    function Millis(): nat { sec * 1000 + nsec / 1_000_000 }
  }

  predicate Accepts(last: nat, now: nat) {
    now >= last + RATE_MSEC
  }

  /** One call of the handler at time `now`: whether it forwards, and the clock variable after it. */
  predicate Called(last: nat, now: nat, forwarded: bool, next: nat) {
    (forwarded <==> Accepts(last, now)) && next == if forwarded then now else last
  }

  class Accelerometer {
    var accTimeMsec: nat
    var sent: seq<InputEvent>

    constructor ()
      ensures accTimeMsec == 0 && sent == []
    {
      accTimeMsec, sent := 0, [];
    }

    method Handle(tick: Tick, x: nat, y: nat, z: nat) returns (forwarded: bool)
      modifies this
      ensures Called(old(accTimeMsec), tick.Millis(), forwarded, accTimeMsec)
      ensures sent == old(sent) + if forwarded then
        [InputEvent(EV_REL, REL_X, x), InputEvent(EV_REL, REL_Y, y), InputEvent(EV_REL, REL_Z, z),
         InputEvent(EV_SYN, 0, 0)]
        else []
    {
      var now := tick.Millis();
      forwarded := now >= accTimeMsec + RATE_MSEC;
      if forwarded {
        accTimeMsec := now;
        sent := sent + [InputEvent(EV_REL, REL_X, x)];
        sent := sent + [InputEvent(EV_REL, REL_Y, y)];
        sent := sent + [InputEvent(EV_REL, REL_Z, z)];
        sent := sent + [InputEvent(EV_SYN, 0, 0)];
      }
    }
  }

  // ----- runs of samples -----

  predicate Monotone(times: seq<nat>) {
    forall i, j :: 0 <= i <= j < |times| ==> times[i] <= times[j]
  }

  /** The samples a run of calls forwards, from the `i`-th on, when the last forwarded was at `last`. */
  function Forwarded(times: seq<nat>, i: nat, last: nat): seq<nat>
    requires i <= |times|
    decreases |times| - i
  {
    if i == |times| then []
    else if Accepts(last, times[i]) then [i] + Forwarded(times, i + 1, times[i])
    else Forwarded(times, i + 1, last)
  }

  /** A run of calls at the given times, from the `i`-th on: what each forwards, and the clock variable
      before and after each. */
  predicate RunOfCalls(times: seq<nat>, flags: seq<bool>, clocks: seq<nat>) {
    |flags| == |times| && |clocks| == |times| + 1
    && forall k :: 0 <= k < |times| ==> Called(clocks[k], times[k], flags[k], clocks[k + 1])
  }

  function Raised(flags: seq<bool>, i: nat): seq<nat>
    requires i <= |flags|
    decreases |flags| - i
  {
    if i == |flags| then [] else (if flags[i] then [i] else []) + Raised(flags, i + 1)
  }

  /** A run of calls forwards exactly the samples of `Forwarded`. */
  lemma {:induction false} CallsForward(times: seq<nat>, flags: seq<bool>, clocks: seq<nat>, i: nat)
    requires RunOfCalls(times, flags, clocks) && i <= |times|
    ensures Raised(flags, i) == Forwarded(times, i, clocks[i])
    decreases |times| - i
  {
    if i < |times| {
      assert Called(clocks[i], times[i], flags[i], clocks[i + 1]);
      CallsForward(times, flags, clocks, i + 1);
    }
  }

  /** A choice of samples from the `i`-th on, in order, each at least 100 ms after the one before it
      and the first at least 100 ms after `last`. */
  predicate Spaced(times: seq<nat>, i: nat, last: nat, choice: seq<nat>)
    decreases |choice|
  {
    choice != [] ==>
      i <= choice[0] < |times| && times[choice[0]] >= last + RATE_MSEC
      && Spaced(times, choice[0] + 1, times[choice[0]], choice[1..])
  }

  /** Choosing from later samples, or after an earlier start, only allows more. */
  lemma SpacedRelaxes(times: seq<nat>, i: nat, last: nat, choice: seq<nat>, k: nat, earlier: nat)
    requires Spaced(times, i, last, choice) && earlier <= last
    requires k <= i || (choice != [] ==> k <= choice[0])
    ensures Spaced(times, k, earlier, choice)
  {
  }

  lemma {:induction false} ForwardedIsSpaced(times: seq<nat>, i: nat, last: nat)
    requires i <= |times|
    ensures Spaced(times, i, last, Forwarded(times, i, last))
    decreases |times| - i
  {
    if i < |times| {
      if Accepts(last, times[i]) {
        var rest := Forwarded(times, i + 1, times[i]);
        ForwardedIsSpaced(times, i + 1, times[i]);
        assert ([i] + rest)[1..] == rest;
      } else {
        ForwardedIsSpaced(times, i + 1, last);
        SpacedRelaxes(times, i + 1, last, Forwarded(times, i + 1, last), i, last);
      }
    }
  }

  lemma {:induction false} NoChoiceIsLonger(times: seq<nat>, i: nat, last: nat, choice: seq<nat>)
    requires Monotone(times) && i <= |times| && Spaced(times, i, last, choice)
    ensures |choice| <= |Forwarded(times, i, last)|
    decreases |times| - i
  {
    if i < |times| && choice != [] {
      if Accepts(last, times[i]) {
        // the first sample chosen can be exchanged for sample i, which is no later
        assert times[i] <= times[choice[0]];
        SpacedRelaxes(times, choice[0] + 1, times[choice[0]], choice[1..], i + 1, times[i]);
        NoChoiceIsLonger(times, i + 1, times[i], choice[1..]);
      } else {
        SpacedRelaxes(times, i, last, choice, i + 1, last);
        NoChoiceIsLonger(times, i + 1, last, choice);
      }
    }
  }

  /** Of all ways to pick samples at least 100 ms apart, the first no earlier than 100 ms, the limiter
      forwards the largest number. */
  lemma LimiterIsOptimal(times: seq<nat>, choice: seq<nat>)
    requires Monotone(times) && Spaced(times, 0, 0, choice)
    ensures Spaced(times, 0, 0, Forwarded(times, 0, 0))
    ensures |choice| <= |Forwarded(times, 0, 0)|
  {
    ForwardedIsSpaced(times, 0, 0);
    NoChoiceIsLonger(times, 0, 0, choice);
  }

  /** The chosen samples of the times from `start` to `end`. */
  function Within(times: seq<nat>, choice: seq<nat>, start: nat, end: nat): seq<nat>
    requires forall c :: c in choice ==> c < |times|
  {
    if choice == [] then []
    else
      assert choice[0] in choice && forall c :: c in choice[1..] ==> c in choice;
      (if start <= times[choice[0]] <= end then [choice[0]] else []) + Within(times, choice[1..], start, end)
  }

  lemma {:induction false} SpacedInRange(times: seq<nat>, i: nat, last: nat, choice: seq<nat>)
    requires Spaced(times, i, last, choice)
    ensures forall c :: c in choice ==> c < |times|
    decreases |choice|
  {
    if choice != [] {
      SpacedInRange(times, choice[0] + 1, times[choice[0]], choice[1..]);
      assert choice == [choice[0]] + choice[1..];
    }
  }

  /** Samples that come after `last` and no later than `end`. */
  lemma {:induction false} FewWithin(times: seq<nat>, i: nat, last: nat, choice: seq<nat>, start: nat, end: nat)
    requires Spaced(times, i, last, choice) && start <= end
    ensures forall c :: c in choice ==> c < |times|
    ensures |Within(times, choice, start, end)| <= if last + RATE_MSEC > end then 0 else (end - last) / RATE_MSEC
    ensures |Within(times, choice, start, end)| <= (end - start) / RATE_MSEC + 1
    decreases |choice|
  {
    SpacedInRange(times, i, last, choice);
    if choice != [] {
      FewWithin(times, choice[0] + 1, times[choice[0]], choice[1..], start, end);
    }
  }

  /** Any window of `length` ms holds at most length / 100 + 1 forwarded samples. */
  lemma WindowBound(times: seq<nat>, start: nat, length: nat)
    ensures forall c :: c in Forwarded(times, 0, 0) ==> c < |times|
    ensures |Within(times, Forwarded(times, 0, 0), start, start + length)| <= length / RATE_MSEC + 1
  {
    ForwardedIsSpaced(times, 0, 0);
    FewWithin(times, 0, 0, Forwarded(times, 0, 0), start, start + length);
  }

  // ----- from seconds and nanoseconds to milliseconds -----

  /** The conversion keeps the order of two readings. */
  lemma MillisMonotone(a: Tick, b: Tick)
    requires a.Valid() && b.Valid() && a.Nanos() <= b.Nanos()
    ensures a.Millis() <= b.Millis()
  {
    if a.sec == b.sec {
      assert a.nsec <= b.nsec;
    } else {
      assert a.sec + 1 <= b.sec;
      assert a.nsec / 1_000_000 < 1000;
    }
  }

  /** Cutting to milliseconds lets two forwarded samples come closer than 100 ms of real time, but
      never as close as 99 ms; the least distance there is, one nanosecond more, is reached. */
  lemma RealSpacing(a: Tick, b: Tick)
    requires a.Valid() && b.Valid() && Accepts(a.Millis(), b.Millis())
    ensures b.Nanos() >= a.Nanos() + 99_000_001
    ensures Accepts(Tick(0, 199_999_999).Millis(), Tick(0, 299_000_000).Millis())
      && Tick(0, 299_000_000).Nanos() == Tick(0, 199_999_999).Nanos() + 99_000_001
  {
    assert a.Nanos() <= a.Millis() * 1_000_000 + 999_999;
    assert b.Nanos() >= b.Millis() * 1_000_000;
  }
}
