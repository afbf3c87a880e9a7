/// `Timer`: the frame clock that turns the render loop's absolute times
/// into per-frame deltas. A stored time of 0 means "no frame yet".
module Timers {
  /// What one `deltaTime(updateAtTime:)` call returns, given the stored
  /// time: 0 on a first call, otherwise the time since the previous call.
  function Delta(last: real, time: real): (r: real)
    ensures last == 0.0 ==> r == 0.0
    ensures last != 0.0 ==> last + r == time
  {
    var start := if last == 0.0 then time else last;
    time - start
  }

  /// The deltas a run of calls returns, starting from stored time `last`;
  /// each call stores its own time for the next.
  function Deltas(last: real, times: seq<real>): (r: seq<real>)
    ensures |r| == |times|
    decreases |times|
  {
    if times == [] then [] else [Delta(last, times[0])] + Deltas(times[0], times[1..])
  }

  function Sum(s: seq<real>): real {
    if s == [] then 0.0 else s[0] + Sum(s[1..])
  }

  /// Call `k` of a run sees the time of call `k - 1` (or the starting
  /// value): a call with time 0 makes the next one a first call again.
  lemma {:induction false} DeltasAt(last: real, times: seq<real>, k: nat)
    requires k < |times|
    ensures Deltas(last, times)[k] == Delta(if k == 0 then last else times[k - 1], times[k])
    decreases k
  {
    if k > 0 {
      DeltasAt(times[0], times[1..], k - 1);
      if k > 1 {
        assert times[1..][k - 2] == times[k - 1];
      }
    }
  }

  /// After a first call, with no time 0 among the calls, the deltas add up
  /// to the last time minus the stored one.
  lemma {:induction false} DeltasTelescope(last: real, times: seq<real>)
    requires last != 0.0 && times != []
    requires forall k :: 0 <= k < |times| ==> times[k] != 0.0
    ensures Sum(Deltas(last, times)) == times[|times| - 1] - last
    decreases |times|
  {
    var r := Deltas(last, times);
    assert r[1..] == Deltas(times[0], times[1..]);
    if |times| > 1 {
      DeltasTelescope(times[0], times[1..]);
      assert times[1..][|times[1..]| - 1] == times[|times| - 1];
    }
  }

  /// From a fresh timer, the deltas of calls with nonzero times add up to
  /// the last time minus the first.
  lemma FreshTimerTotal(times: seq<real>)
    requires times != []
    requires forall k :: 0 <= k < |times| ==> times[k] != 0.0
    ensures Deltas(0.0, times)[0] == 0.0
    ensures Sum(Deltas(0.0, times)) == times[|times| - 1] - times[0]
  {
    var r := Deltas(0.0, times);
    assert r[1..] == Deltas(times[0], times[1..]);
    if |times| > 1 {
      DeltasTelescope(times[0], times[1..]);
      assert times[1..][|times[1..]| - 1] == times[|times| - 1];
    }
  }

  class Timer {
    var lastUpdateTime: real

    constructor ()
      ensures lastUpdateTime == 0.0
    {
      lastUpdateTime := 0.0;
    }

    /// `deltaTime(updateAtTime:)`: adopt `time` as the reference on a first
    /// call, return the time since the reference, and store `time`.
    method DeltaTime(time: real) returns (deltaTime: real)
      modifies this
      ensures deltaTime == Delta(old(lastUpdateTime), time)
      ensures lastUpdateTime == time
    {
      if lastUpdateTime == 0.0 {
        lastUpdateTime := time;
      }
      deltaTime := time - lastUpdateTime;
      lastUpdateTime := time;
    }
  }
}
