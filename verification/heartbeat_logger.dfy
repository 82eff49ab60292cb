/** The heartbeat (`HeartbeatLogger`): a timer that accumulates the
    unscaled frame time and writes a tick line to the durable log each time
    the accumulated time reaches the interval, starting over from zero. */
module Heartbeat {
  import opened LogSink

  const HeartbeatPrefix: string := "quest_hand_passthrough"
  const EnabledLine: string := "[HB] HeartbeatLogger enabled."
  const TickLine: string := "[HB] tick"
  const DefaultInterval: real := 10.0

  /** The timer after one frame, and whether that frame ticked. */
  datatype Beat = Beat(t: real, tick: bool)

  /** One frame of `delta` seconds from accumulated time `t`. */
  function Step(t: real, delta: real, interval: real): (b: Beat)
    ensures b.tick <==> t + delta >= interval
    ensures b.tick ==> b.t == 0.0
    ensures !b.tick ==> b.t == t + delta
  {
    var acc := t + delta;
    if acc >= interval then Beat(0.0, true) else Beat(acc, false)
  }

  /** With a positive interval and non-negative frame times, the timer stays
      in `[0, interval)`: it never holds a full interval after a frame. */
  lemma StepKeepsRange(t: real, delta: real, interval: real)
    requires interval > 0.0 && delta >= 0.0 && 0.0 <= t < interval
    ensures 0.0 <= Step(t, delta, interval).t < interval
  {
  }

  function Sum(deltas: seq<real>): real
  {
    if deltas == [] then 0.0 else Sum(deltas[..|deltas| - 1]) + deltas[|deltas| - 1]
  }

  /** The timer and the number of ticks after a run of frames. */
  datatype Run = Run(t: real, ticks: nat)

  function RunFrom(t0: real, deltas: seq<real>, interval: real): Run
  {
    if deltas == [] then Run(t0, 0)
    else
      var r := RunFrom(t0, deltas[..|deltas| - 1], interval);
      var b := Step(r.t, deltas[|deltas| - 1], interval);
      Run(b.t, r.ticks + if b.tick then 1 else 0)
  }

  /** Over any run of non-negative frame times there is at most one tick a
      frame, and the timer stays below the interval. */
  lemma {:induction false} RunBounds(t0: real, deltas: seq<real>, interval: real)
    requires interval > 0.0 && 0.0 <= t0 < interval
    requires forall i :: 0 <= i < |deltas| ==> deltas[i] >= 0.0
    ensures var r := RunFrom(t0, deltas, interval);
      r.ticks <= |deltas| && 0.0 <= r.t < interval
  {
    if deltas != [] {
      var front := deltas[..|deltas| - 1];
      assert forall i :: 0 <= i < |front| ==> front[i] == deltas[i];
      RunBounds(t0, front, interval);
      StepKeepsRange(RunFrom(t0, front, interval).t, deltas[|deltas| - 1], interval);
    }
  }

  /** Every tick consumes at least a full interval (any overshoot is
      dropped), so the ticks and what is left on the timer never account for
      more than the time that passed. */
  lemma {:induction false} RunAccounting(t0: real, deltas: seq<real>, interval: real)
    requires interval > 0.0
    requires forall i :: 0 <= i < |deltas| ==> deltas[i] >= 0.0
    ensures var r := RunFrom(t0, deltas, interval);
      r.ticks as real * interval + r.t <= t0 + Sum(deltas)
  {
    if deltas != [] {
      var front := deltas[..|deltas| - 1];
      var d := deltas[|deltas| - 1];
      assert forall i :: 0 <= i < |front| ==> front[i] == deltas[i];
      RunAccounting(t0, front, interval);
      var r := RunFrom(t0, front, interval);
      AccountStep(r.ticks, r.t, d, interval, t0 + Sum(front));
    }
  }

  /** One frame keeps the accounting: a tick needs a full interval. */
  lemma AccountStep(k: nat, t: real, d: real, interval: real, total: real)
    requires interval > 0.0 && d >= 0.0 && k as real * interval + t <= total
    ensures var b := Step(t, d, interval);
      (k + if b.tick then 1 else 0) as real * interval + b.t <= total + d
  {
    assert (k + 1) as real * interval == k as real * interval + interval;
  }

  class HeartbeatLogger {
    /** The process-wide sink. */
    const sink: LogFile
    /** Seconds between ticks. */
    const interval: real
    /** Seconds accumulated since the last tick. */
    var t: real

    constructor (sink: LogFile, interval: real)
      ensures this.sink == sink && this.interval == interval && t == 0.0
    {
      this.sink := sink;
      this.interval := interval;
      t := 0.0;
    }

    /** `OnEnable`: initialise the sink with the heartbeat prefix (unless some
        other component already did), then write the enabled line. */
    method OnEnable(host: Host)
      requires sink.Valid()
      modifies sink
      ensures sink.Valid() && sink.inited
      ensures !old(sink.inited) ==> sink.path == LogPath(host, HeartbeatPrefix)
      ensures old(sink.inited) ==> sink.path == old(sink.path)
      ensures sink.file == (if old(sink.inited) then old(sink.file)
                            else InitLines(host, LogPath(host, HeartbeatPrefix)))
                           + [Entry(host.lineStamp, EnabledLine)]
    {
      sink.Init(HeartbeatPrefix, host);
      sink.WriteLine(EnabledLine, host);
    }

    /** `Update`: one frame of `delta` unscaled seconds. */
    method Update(delta: real, host: Host) returns (ticked: bool)
      requires sink.Valid()
      modifies this`t, sink
      ensures Beat(t, ticked) == Step(old(t), delta, interval)
      ensures sink.Valid()
      ensures sink.file == FileAfter(old(sink.inited), old(sink.file), host, if ticked then [TickLine] else [])
    {
      t := t + delta;
      ticked := false;
      if t >= interval {
        t := 0.0;
        sink.WriteLine(TickLine, host);
        ticked := true;
      }
    }
  }
}
