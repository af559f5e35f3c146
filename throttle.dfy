/** `throttle(fn, ms = 100)` of `src/utils/performance.ts`: a wrapper that
    calls `fn` at most once per interval, remembering in `lastCall` when it
    last did. The clock is an input: each call of the wrapper is given the
    `Date.now()` of that moment, and says whether `fn` ran. */
module Throttle {

  const DefaultInterval := 100

  /** Whether a call at `now` runs `fn`, the previous run being at `lastCall`. */
  predicate Fires(lastCall: int, now: int, ms: int) {
    now - lastCall >= ms
  }

  /** The times at which `fn` runs, for calls at `times` in that order, the
      previous run being at `lastCall`. Each run is one of the calls, the
      first is at least `ms` after `lastCall`, and two consecutive runs are at
      least `ms` apart. */
  function Runs(lastCall: int, times: seq<int>, ms: int): (runs: seq<int>)
    ensures |runs| <= |times|
    ensures forall i :: 0 <= i < |runs| ==> runs[i] in times
    ensures runs != [] ==> runs[0] - lastCall >= ms
    ensures forall i :: 0 <= i < |runs| - 1 ==> runs[i + 1] - runs[i] >= ms
    decreases |times|
  {
    if times == [] then []
    else if Fires(lastCall, times[0], ms) then [times[0]] + Runs(times[0], times[1..], ms)
    else Runs(lastCall, times[1..], ms)
  }

  /** The value of `lastCall` after the calls at `times`: the last run, or the
      starting value when nothing ran. */
  function LastCallAfter(lastCall: int, times: seq<int>, ms: int): int {
    var runs := Runs(lastCall, times, ms);
    if runs == [] then lastCall else runs[|runs| - 1]
  }

  /** One more call runs `fn` exactly when it comes at least `ms` after the
      last run, and then it is appended to the runs. */
  lemma {:induction false} RunsAppend(lastCall: int, times: seq<int>, now: int, ms: int)
    ensures Runs(lastCall, times + [now], ms) ==
      Runs(lastCall, times, ms) + (if Fires(LastCallAfter(lastCall, times, ms), now, ms) then [now] else [])
    decreases |times|
  {
    if times != [] {
      var s := times + [now];
      assert s[0] == times[0] && s[1..] == times[1..] + [now];
      if Fires(lastCall, times[0], ms) {
        RunsAppend(times[0], times[1..], now, ms);
      } else {
        RunsAppend(lastCall, times[1..], now, ms);
      }
    } else {
      assert Runs(lastCall, [now], ms) == (if Fires(lastCall, now, ms) then [now] else []) + Runs(lastCall, [], ms);
    }
  }

  /** The closure returned by `throttle`: its interval and its `lastCall`
      variable. The calls made so far and the runs of `fn` they caused are
      recorded for the proof. */
  class Throttled {
    const ms: int
    var lastCall: int
    ghost var calls: seq<int>
    ghost var runs: seq<int>

    /** The runs are those the calls cause from a start at 0, and `lastCall`
        is the last of them. */
    ghost predicate Valid()
      reads this
    {
      && runs == Runs(0, calls, ms)
      && lastCall == LastCallAfter(0, calls, ms)
    }

    /** `throttle(fn, ms)`: nothing has run yet and `lastCall` is 0. */
    constructor (ms: int := DefaultInterval)
      ensures this.ms == ms && lastCall == 0
      ensures calls == [] && runs == []
      ensures Valid()
    {
      this.ms := ms;
      lastCall := 0;
      calls := [];
      runs := [];
    }

    /** A call at `now`: `fn` runs exactly when at least `ms` have passed
        since `lastCall`, which then becomes `now`; a suppressed call changes
        nothing. */
    method Call(now: int) returns (invoked: bool)
      requires Valid()
      modifies this
      ensures Valid()
      ensures invoked <==> now - old(lastCall) >= ms
      ensures lastCall == if invoked then now else old(lastCall)
      ensures calls == old(calls) + [now]
      ensures runs == old(runs) + (if invoked then [now] else [])
    {
      RunsAppend(0, calls, now, ms);
      invoked := now - lastCall >= ms;
      if invoked {
        lastCall := now;
      }
      calls := calls + [now];
      runs := runs + (if invoked then [now] else []);
    }
  }

  /** Three calls within one interval of the first: only the first runs
      `fn`. */
  method Burst(start: int)
    requires start >= DefaultInterval
  {
    var throttled := new Throttled();
    var a := throttled.Call(start);
    var b := throttled.Call(start + 40);
    var c := throttled.Call(start + 99);
    assert a && !b && !c;
    var d := throttled.Call(start + 100);
    assert d && throttled.lastCall == start + 100;
  }
}
