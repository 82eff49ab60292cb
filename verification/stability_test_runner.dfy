/** The soak-test orchestrator (`StabilityTestRunner`): apply the scenario,
    warm up, then run for the configured time while firing soft resets on a
    fixed cadence, catching up on every deadline a stall skipped over.

    Unity's coroutines become methods that consume the clock readings of
    successive frames (`clock`, non-decreasing, in milliseconds); each
    `yield return null` moves to the next frame. When the readings run out
    the coroutine is left suspended, as when the host stops calling it. What
    the runner does to its collaborators and writes to the log is recorded,
    in order, in `trace`. */
module Stability {
  import opened Passthrough
  import LogSink

  datatype Scenario = HandOnly | HandPlusDepth | HandPlusRGB | HandPlusRGBAndDepth

  /** The passthrough modes a scenario asks for. */
  function ScenarioMode(s: Scenario): (m: Mode)
    ensures m.rgb <==> s == HandPlusRGB || s == HandPlusRGBAndDepth
    ensures m.depth <==> s == HandPlusDepth || s == HandPlusRGBAndDepth
  {
    match s
    case HandOnly => Mode(false, false)
    case HandPlusDepth => Mode(false, true)
    case HandPlusRGB => Mode(true, false)
    case HandPlusRGBAndDepth => Mode(true, true)
  }

  /** Different scenarios ask for different modes, so the mapping is a
      bijection between the four scenarios and the four mode pairs. */
  lemma ScenarioModeBijective(a: Scenario, b: Scenario, m: Mode)
    ensures ScenarioMode(a) == ScenarioMode(b) ==> a == b
    ensures exists s :: ScenarioMode(s) == m
  {
    var s := if m.rgb then (if m.depth then HandPlusRGBAndDepth else HandPlusRGB)
             else (if m.depth then HandPlusDepth else HandOnly);
    assert ScenarioMode(s) == m;
  }

  /** The adapter call that configures a scenario, both at warmup and after
      a passthrough reset: `ShutdownAll` for hands only, `SetBoth` otherwise. */
  function ScenarioCall(s: Scenario): (c: PtCall)
    ensures c.ShutdownAll? <==> s == HandOnly
    ensures c.ShutdownAll? || c.SetBoth?
    ensures c.SetBoth? ==> c.rgb == ScenarioMode(s).rgb && c.depth == ScenarioMode(s).depth
  {
    match s
    case HandOnly => ShutdownAll
    case HandPlusDepth => SetBoth(false, true)
    case HandPlusRGB => SetBoth(true, false)
    case HandPlusRGBAndDepth => SetBoth(true, true)
  }

  /** Whatever mode the backend was in, the scenario's call leaves it in the
      scenario's mode. */
  lemma ScenarioCallSetsMode(s: Scenario, m: Mode)
    ensures ModeAfter(ScenarioCall(s), m) == ScenarioMode(s)
  {
  }

  /** The inspector settings of a run. Durations are in minutes, as there. */
  datatype RunConfig = RunConfig(
    scenario: Scenario,
    warmupMinutes: real,
    runMinutes: real,
    enableSoftReset: bool,
    resetEveryMinutes: real,
    resetHands: bool,
    resetPassthrough: bool)

  const DefaultConfig: RunConfig := RunConfig(HandPlusRGBAndDepth, 2.0, 90.0, true, 30.0, true, true)

  /** `Mathf.Max(0f, minutes) * 60f` seconds, in whole milliseconds. */
  function MinutesToMs(minutes: real): (ms: nat)
    ensures minutes <= 0.0 ==> ms == 0
    ensures minutes > 0.0 ==> ms as real <= minutes * 60000.0 < ms as real + 1.0
  {
    if minutes <= 0.0 then 0 else (minutes * 60000.0).Floor
  }

  /** Soft reset is on only when enabled with an interval above 0.01 minutes. */
  predicate SoftResetActive(cfg: RunConfig)
  {
    cfg.enableSoftReset && cfg.resetEveryMinutes > 0.01
  }

  function ResetIntervalMs(cfg: RunConfig): nat
  {
    MinutesToMs(cfg.resetEveryMinutes)
  }

  /** An active cadence is at least 600 ms, so it always advances the deadline. */
  lemma ActiveIntervalPositive(cfg: RunConfig)
    requires SoftResetActive(cfg)
    ensures ResetIntervalMs(cfg) >= 600
  {
    assert cfg.resetEveryMinutes * 60000.0 > 600.0;
  }

  /** A reset deadline in milliseconds since the main run began, or +infinity. */
  datatype Deadline = At(ms: int) | Never

  /** The first deadline: one interval after `sinceStart`, or never. */
  function FirstDeadline(cfg: RunConfig, sinceStart: int): (d: Deadline)
    ensures d.At? <==> SoftResetActive(cfg)
    ensures d.At? ==> d.ms == sinceStart + ResetIntervalMs(cfg)
  {
    if SoftResetActive(cfg) then At(sinceStart + ResetIntervalMs(cfg)) else Never
  }

  predicate Due(d: Deadline, elapsed: int)
  {
    d.At? && elapsed >= d.ms
  }

  /** How many resets the catch-up loop fires when it finds `elapsed` with
      the deadline at `deadline`: none when not yet due, otherwise
      floor((elapsed - deadline) / interval) + 1. */
  function ResetsDue(elapsed: int, deadline: int, interval: int): (k: nat)
    requires interval > 0
  {
    if elapsed < deadline then 0 else (elapsed - deadline) / interval + 1
  }

  lemma MulMonotone(a: int, b: int, c: int)
    requires a <= b && c >= 0
    ensures a * c <= b * c
  {
  }

  /** Euclidean division by a positive divisor is determined by the bracket
      the dividend falls in. */
  lemma {:induction false} DivBracket(x: int, q: int, d: int)
    requires d > 0 && q * d <= x < (q + 1) * d
    ensures x / d == q
  {
    var q' := x / d;
    assert q' * d <= x < q' * d + d;
    if q' < q {
      MulMonotone(q' + 1, q, d);
    } else if q' > q {
      MulMonotone(q + 1, q', d);
    }
  }

  /** `ResetsDue` is the number of deadlines `deadline`, `deadline + I`, ...
      that `elapsed` has reached: the n-th of them (from 0) is reached
      exactly when n is below the count. */
  lemma {:induction false} ResetsDueCounts(elapsed: int, deadline: int, interval: int, n: nat)
    requires interval > 0
    ensures deadline + n * interval <= elapsed <==> n < ResetsDue(elapsed, deadline, interval)
  {
    var k := ResetsDue(elapsed, deadline, interval);
    if elapsed >= deadline {
      var x := elapsed - deadline;
      assert (x / interval) * interval <= x < (x / interval + 1) * interval;
      if n < k {
        MulMonotone(n, x / interval, interval);
      } else {
        MulMonotone(x / interval + 1, n, interval);
      }
    } else {
      MulMonotone(0, n, interval);
    }
  }

  /** The count pins down the new deadline: after k catch-up resets the
      deadline is past `elapsed`, and the one before it was not. */
  lemma ResetsDueBracket(elapsed: int, deadline: int, interval: int)
    requires interval > 0
    ensures var k := ResetsDue(elapsed, deadline, interval);
      deadline + k * interval > elapsed
      && (k > 0 ==> deadline + (k - 1) * interval <= elapsed)
  {
    var k := ResetsDue(elapsed, deadline, interval);
    ResetsDueCounts(elapsed, deadline, interval, k);
    if k > 0 {
      ResetsDueCounts(elapsed, deadline, interval, k - 1);
    }
  }

  /** In the main run the deadlines are the multiples of the interval: when
      the (n+1)-th is reached, the catch-up fires k resets and leaves
      `elapsed` between the (n+k)-th and the (n+k+1)-th multiple. */
  lemma AdvanceBracket(elapsed: int, n: int, interval: int)
    requires interval > 0 && (n + 1) * interval <= elapsed
    ensures var k := ResetsDue(elapsed, (n + 1) * interval, interval);
      k >= 1 && (n + 1) * interval + k * interval == (n + k + 1) * interval
      && (n + k) * interval <= elapsed < (n + k + 1) * interval
  {
    var k := ResetsDue(elapsed, (n + 1) * interval, interval);
    ResetsDueBracket(elapsed, (n + 1) * interval, interval);
    assert (n + 1) * interval + k * interval == (n + k + 1) * interval;
    assert (n + 1) * interval + (k - 1) * interval == (n + k) * interval;
  }

  /** The example of a stall: with a 10 s cadence and the clock jumping from
      9 s to 35 s, three resets fire and the next deadline is 40 s. */
  lemma CatchUpExample()
    ensures ResetsDue(35000, 10000, 10000) == 3
    ensures 10000 + ResetsDue(35000, 10000, 10000) * 10000 == 40000
  {
  }

  // ---------------------------------------------------------------------
  // What the runner does, as a trace of events.

  /** One observable step of the runner: a line written to the log file,
      a call on the hand subsystem or the passthrough adapter, or the end of
      a frame (`yield return null`). */
  datatype Event =
    | Line(text: string)
    | ConfigLogged(cfg: RunConfig)
    | ResetBegun(atMs: int)
    | ResetCompleted(count: int, lastAtMs: int)
    | HandsStop
    | HandsStart
    | Adapter(call: PtCall)
    | Tick

  /** The file-name prefix the runner's `Awake` initialises the sink with. */
  const RunnerPrefix: string := "quest_hand_passthrough"

  const AwakeLine: string := "[TEST] StabilityTestRunner Awake."
  const ApplyingLine: string := "[TEST] Applying scenario & warmup…"
  const StartingHandsLine: string := "[TEST] Starting XRHandSubsystem…"
  const WarmupCompleteLine: string := "[TEST] Warmup complete."
  const EnteringLine: string := "[TEST] Entering main run…"
  const CompletedLine: string := "[TEST] Completed run."
  const DisabledLine: string := "[TEST] StabilityTestRunner disabled."
  const ResetStoppingLine: string := "[RESET] Stopping XRHandSubsystem…"
  const ResetStartingLine: string := "[RESET] Starting XRHandSubsystem…"
  const ResetTogglingLine: string := "[RESET] Toggling passthrough off…"
  const ResetRestoredLine: string := "[RESET] Passthrough restored to scenario."

  /** The teardown grace period of a passthrough reset. */
  const PassthroughGraceMs: int := 250

  function Ticks(n: nat): (r: seq<Event>)
    ensures |r| == n && forall i :: 0 <= i < n ==> r[i] == Tick
  {
    seq(n, _ => Tick)
  }

  /** The events of a completed warmup, in order: the announcement, the
      hand subsystem started when it exists and is stopped, the scenario
      applied, `waits` frames, then the completion line. */
  function WarmupTrace(cfg: RunConfig, hasHands: bool, running: bool, waits: nat): seq<Event>
  {
    [Line(ApplyingLine)]
    + (if hasHands && !running then [Line(StartingHandsLine), HandsStart] else [])
    + [Adapter(ScenarioCall(cfg.scenario))]
    + Ticks(waits)
    + [Line(WarmupCompleteLine)]
  }

  /** The events of one complete soft reset, in order: hands stop, one
      frame, hands start; then passthrough off, `waits` frames, scenario
      reapplied; then the count and time are recorded. */
  function ResetTrace(cfg: RunConfig, hasHands: bool, tNow: int, count: int, waits: nat): seq<Event>
  {
    [ResetBegun(tNow)] + HandsPart(cfg, hasHands) + PassthroughPart(cfg, waits) + [ResetCompleted(count, tNow)]
  }

  /** The hands part of a reset: present only when asked for and the
      subsystem exists. */
  function HandsPart(cfg: RunConfig, hasHands: bool): seq<Event>
  {
    if cfg.resetHands && hasHands
    then [Line(ResetStoppingLine), HandsStop, Tick, Line(ResetStartingLine), HandsStart]
    else []
  }

  /** The passthrough part of a reset: present only when asked for. */
  function PassthroughPart(cfg: RunConfig, waits: nat): seq<Event>
  {
    if cfg.resetPassthrough
    then [Line(ResetTogglingLine), Adapter(ShutdownAll)] + Ticks(waits)
         + [Adapter(ScenarioCall(cfg.scenario)), Line(ResetRestoredLine)]
    else []
  }

  /** Appending the parts of a reset one after the other appends its trace. */
  lemma AppendResetTrace(pre: seq<Event>, cfg: RunConfig, hasHands: bool, tNow: int, count: int, waits: nat)
    ensures pre + [ResetBegun(tNow)] + HandsPart(cfg, hasHands) + PassthroughPart(cfg, waits) + [ResetCompleted(count, tNow)]
            == pre + ResetTrace(cfg, hasHands, tNow, count, waits)
  {
  }

  /** The passthrough calls in a trace, in order. */
  function AdapterCalls(tr: seq<Event>): seq<PtCall>
    decreases |tr|
  {
    if tr == [] then []
    else (if tr[0].Adapter? then [tr[0].call] else []) + AdapterCalls(tr[1..])
  }

  lemma {:induction false} AdapterCallsAppend(a: seq<Event>, b: seq<Event>)
    ensures AdapterCalls(a + b) == AdapterCalls(a) + AdapterCalls(b)
    decreases |a|
  {
    if a == [] {
      assert a + b == b;
    } else {
      assert (a + b)[0] == a[0] && (a + b)[1..] == a[1..] + b;
      AdapterCallsAppend(a[1..], b);
    }
  }

  /** A stretch of the trace without adapter events contributes no calls. */
  lemma {:induction false} NoAdapterCalls(tr: seq<Event>)
    requires forall i :: 0 <= i < |tr| ==> !tr[i].Adapter?
    ensures AdapterCalls(tr) == []
    decreases |tr|
  {
    if tr != [] {
      NoAdapterCalls(tr[1..]);
    }
  }

  lemma AdapterCallsOne(e: Event)
    ensures AdapterCalls([e]) == if e.Adapter? then [e.call] else []
  {
    assert [e][1..] == [];
  }

  lemma HandsPartCalls(cfg: RunConfig, hasHands: bool)
    ensures AdapterCalls(HandsPart(cfg, hasHands)) == []
  {
    NoAdapterCalls(HandsPart(cfg, hasHands));
  }

  lemma PassthroughPartCalls(cfg: RunConfig, waits: nat)
    ensures AdapterCalls(PassthroughPart(cfg, waits))
            == if cfg.resetPassthrough then [ShutdownAll, ScenarioCall(cfg.scenario)] else []
  {
    if cfg.resetPassthrough {
      var off: seq<Event> := [Line(ResetTogglingLine), Adapter(ShutdownAll)];
      var on: seq<Event> := [Adapter(ScenarioCall(cfg.scenario)), Line(ResetRestoredLine)];
      AdapterCallsAppend(off + Ticks(waits), on);
      AdapterCallsAppend(off, Ticks(waits));
      NoAdapterCalls(Ticks(waits));
      assert off == [off[0]] + [off[1]];
      AdapterCallsAppend([off[0]], [off[1]]);
      AdapterCallsOne(off[0]);
      AdapterCallsOne(off[1]);
      assert on == [on[0]] + [on[1]];
      AdapterCallsAppend([on[0]], [on[1]]);
      AdapterCallsOne(on[0]);
      AdapterCallsOne(on[1]);
    }
  }

  /** A soft reset touches passthrough only when `resetPassthrough` is set,
      and then by exactly `ShutdownAll` followed by the scenario's own call. */
  lemma ResetAdapterCalls(cfg: RunConfig, hasHands: bool, tNow: int, count: int, waits: nat)
    ensures AdapterCalls(ResetTrace(cfg, hasHands, tNow, count, waits))
            == if cfg.resetPassthrough then [ShutdownAll, ScenarioCall(cfg.scenario)] else []
  {
    var head: seq<Event> := [ResetBegun(tNow)];
    var hands := HandsPart(cfg, hasHands);
    var pt := PassthroughPart(cfg, waits);
    var last: seq<Event> := [ResetCompleted(count, tNow)];
    AdapterCallsAppend(head + hands + pt, last);
    AdapterCallsAppend(head + hands, pt);
    AdapterCallsAppend(head, hands);
    AdapterCallsOne(head[0]);
    AdapterCallsOne(last[0]);
    HandsPartCalls(cfg, hasHands);
    PassthroughPartCalls(cfg, waits);
  }

  /** After a passthrough reset the backend is back in the scenario's mode,
      whatever mode it was in before the reset. */
  lemma ResetRestoresScenarioMode(cfg: RunConfig, hasHands: bool, tNow: int, count: int, waits: nat, m: Mode)
    requires cfg.resetPassthrough
    ensures ModeAfterAll(AdapterCalls(ResetTrace(cfg, hasHands, tNow, count, waits)), m) == ScenarioMode(cfg.scenario)
  {
    ResetAdapterCalls(cfg, hasHands, tNow, count, waits);
    var calls := [ShutdownAll, ScenarioCall(cfg.scenario)];
    var m1 := ModeAfter(ShutdownAll, m);
    assert calls[1..] == [ScenarioCall(cfg.scenario)] && calls[1..][1..] == [];
    assert ModeAfterAll(calls, m) == ModeAfterAll([ScenarioCall(cfg.scenario)], m1);
    assert ModeAfterAll([ScenarioCall(cfg.scenario)], m1) == ModeAfter(ScenarioCall(cfg.scenario), m1);
    ScenarioCallSetsMode(cfg.scenario, m1);
  }

  // ---------------------------------------------------------------------
  // The runner.

  /** Where the test's coroutine stands. */
  datatype Phase = Idle | Warmup | Running | Resetting | Completed | Disabled

  ghost predicate Monotone(clock: seq<int>)
  {
    forall i, j :: 0 <= i <= j < |clock| ==> clock[i] <= clock[j]
  }

  class StabilityTestRunner {
    const cfg: RunConfig
    /** Whether an XR hand subsystem was found (`_hands != null`). */
    const hasHands: bool
    /** `Time.realtimeSinceStartup` at each frame, in milliseconds. */
    const clock: seq<int>

    /** The hand subsystem's `running` flag. */
    var handsRunning: bool
    /** The current frame: `clock[frame]` is the time now. */
    var frame: nat
    var trace: seq<Event>

    // Telemetry read by the HUD.
    var resetCount: int
    var lastResetAtMs: int
    var startedAtRealtime: int

    ghost var phase: Phase

    ghost predicate Valid()
      reads this
    {
      0 < |clock| && 0 <= clock[0] && Monotone(clock) && frame <= |clock|
    }

    /** The coroutine can still run: there is a reading for this frame. */
    predicate Alive()
      reads this
    {
      frame < |clock|
    }

    function Now(): int
      reads this
      requires Alive()
    {
      clock[frame]
    }

    /** The telemetry invariant: the count is never negative, the time of the
        last reset is -1 exactly until the first reset, and it is never later
        than the current time since the test started. */
    ghost predicate TelemetryValid()
      reads this
      requires Valid()
    {
      && resetCount >= 0
      && (resetCount == 0 <==> lastResetAtMs == -1)
      && (resetCount > 0 ==> lastResetAtMs >= 0)
      && (Alive() ==> startedAtRealtime <= Now() && lastResetAtMs <= Now() - startedAtRealtime)
    }

    /** `Awake` and `OnEnable` up to starting the coroutine: the collaborators
        found in the scene and the clock are given. `Awake` first initialises
        the process-wide `sink` with the runner's own prefix, which fixes the
        file name when no other component has written yet; the lines the
        runner writes from then on are recorded in `trace`. */
    constructor (cfg: RunConfig, hasHands: bool, handsRunning: bool, clock: seq<int>,
                 sink: LogSink.LogFile, host: LogSink.Host)
      requires 0 < |clock| && 0 <= clock[0] && Monotone(clock)
      requires sink.Valid()
      modifies sink
      ensures sink.Valid() && sink.inited
      ensures !old(sink.inited) ==> sink.path == LogSink.LogPath(host, RunnerPrefix)
                                    && sink.file == LogSink.InitLines(host, sink.path)
      ensures old(sink.inited) ==> sink.path == old(sink.path) && sink.file == old(sink.file)
      ensures Valid() && TelemetryValid() && Alive() && frame == 0
      ensures this.cfg == cfg && this.hasHands == hasHands && this.handsRunning == handsRunning && this.clock == clock
      ensures resetCount == 0 && lastResetAtMs == -1 && phase == Idle
      ensures trace == [Line(AwakeLine), ConfigLogged(cfg)]
    {
      this.cfg := cfg;
      this.hasHands := hasHands;
      this.handsRunning := handsRunning;
      this.clock := clock;
      frame := 0;
      resetCount := 0;
      lastResetAtMs := -1;
      startedAtRealtime := 0;
      trace := [Line(AwakeLine), ConfigLogged(cfg)];
      phase := Idle;
      new;
      sink.Init(RunnerPrefix, host);
    }

    lemma ClockMonotone(i: int, j: int)
      requires Valid() && 0 <= i <= j < |clock|
      ensures clock[i] <= clock[j]
    {
    }

    /** `yield return null`: the frame ends, the next reading becomes now. */
    method Yield() returns (alive: bool)
      requires Valid() && Alive()
      modifies this`frame, this`trace
      ensures Valid() && frame == old(frame) + 1 && trace == old(trace) + [Tick]
      ensures alive == Alive()
    {
      frame := frame + 1;
      trace := trace + [Tick];
      alive := frame < |clock|;
    }

    /** `while (now < end) yield return null;`: the first frame whose time is
        not before `end`, every frame skipped being earlier. */
    method WaitUntil(end: int) returns (alive: bool)
      requires Valid() && Alive()
      modifies this`frame, this`trace
      ensures Valid() && old(frame) <= frame && alive == Alive()
      ensures trace == old(trace) + Ticks(frame - old(frame))
      ensures forall f :: old(frame) <= f < frame ==> clock[f] < end
      ensures alive ==> Now() >= end
    {
      alive := true;
      while Now() < end
        invariant Valid() && Alive() && old(frame) <= frame
        invariant trace == old(trace) + Ticks(frame - old(frame))
        invariant forall f :: old(frame) <= f < frame ==> clock[f] < end
        decreases |clock| - frame
      {
        ghost var before := frame;
        alive := Yield();
        assert Ticks(before - old(frame)) + [Tick] == Ticks(frame - old(frame));
        if !alive {
          return;
        }
      }
    }

    /** `ApplyScenarioAndWarmup`: start the hand subsystem if it is there and
        stopped, configure passthrough for the scenario, then hold for the
        warmup time. */
    method ApplyScenarioAndWarmup() returns (alive: bool)
      requires Valid() && Alive()
      modifies this`frame, this`trace, this`handsRunning, this`phase
      ensures Valid() && old(frame) <= frame && alive == Alive()
      ensures handsRunning == (old(handsRunning) || hasHands)
      ensures trace == old(trace) + [Line(ApplyingLine)]
                       + (if hasHands && !old(handsRunning) then [Line(StartingHandsLine), HandsStart] else [])
                       + [Adapter(ScenarioCall(cfg.scenario))]
                       + Ticks(frame - old(frame))
                       + (if alive then [Line(WarmupCompleteLine)] else [])
      ensures forall f :: old(frame) <= f < frame ==> clock[f] < clock[old(frame)] + MinutesToMs(cfg.warmupMinutes)
      ensures alive ==> Now() >= clock[old(frame)] + MinutesToMs(cfg.warmupMinutes)
      ensures !alive ==> phase == Warmup
      ensures alive ==> trace == old(trace) + WarmupTrace(cfg, hasHands, old(handsRunning), frame - old(frame))
    {
      phase := Warmup;
      trace := trace + [Line(ApplyingLine)];
      if hasHands && !handsRunning {
        trace := trace + [Line(StartingHandsLine), HandsStart];
        handsRunning := true;
      }
      trace := trace + [Adapter(ScenarioCall(cfg.scenario))];
      var warm := MinutesToMs(cfg.warmupMinutes);
      var warmStart := Now();
      alive := WaitUntil(warmStart + warm);
      if alive {
        trace := trace + [Line(WarmupCompleteLine)];
      }
    }

    /** The hands part of a reset: stop, let one frame pass, start. */
    method RestartHands() returns (alive: bool)
      requires Valid() && Alive()
      modifies this`frame, this`trace, this`handsRunning
      ensures Valid() && frame == old(frame) + 1 && alive == Alive()
      ensures handsRunning == alive
      ensures trace == old(trace) + [Line(ResetStoppingLine), HandsStop, Tick]
                       + (if alive then [Line(ResetStartingLine), HandsStart] else [])
      ensures alive && cfg.resetHands && hasHands ==> trace == old(trace) + HandsPart(cfg, hasHands)
    {
      trace := trace + [Line(ResetStoppingLine), HandsStop];
      handsRunning := false;
      alive := Yield();
      if alive {
        trace := trace + [Line(ResetStartingLine), HandsStart];
        handsRunning := true;
      }
    }

    /** The passthrough part of a reset: everything off, wait until the
        grace period has passed (at least one frame), reapply the scenario. */
    method CyclePassthrough() returns (alive: bool, waits: nat)
      requires Valid() && Alive()
      modifies this`frame, this`trace
      ensures Valid() && frame == old(frame) + waits && 1 <= waits && alive == Alive()
      ensures trace == old(trace) + [Line(ResetTogglingLine), Adapter(ShutdownAll)] + Ticks(waits)
                       + (if alive then [Adapter(ScenarioCall(cfg.scenario)), Line(ResetRestoredLine)] else [])
      ensures forall f :: old(frame) <= f < frame ==> clock[f] < clock[old(frame)] + PassthroughGraceMs
      ensures alive ==> Now() >= clock[old(frame)] + PassthroughGraceMs
      ensures alive && cfg.resetPassthrough ==> trace == old(trace) + PassthroughPart(cfg, waits)
    {
      var f0 := frame;
      trace := trace + [Line(ResetTogglingLine), Adapter(ShutdownAll)];
      alive := WaitUntil(Now() + PassthroughGraceMs);
      waits := frame - f0;
      if alive {
        trace := trace + [Adapter(ScenarioCall(cfg.scenario)), Line(ResetRestoredLine)];
      }
    }

    /** The two optional parts of a reset, in order; the telemetry is
        left to `DoSoftReset`. */
    method ResetParts() returns (alive: bool, waits: nat)
      requires Valid() && Alive()
      modifies this`frame, this`trace, this`handsRunning
      ensures Valid() && old(frame) <= frame && alive == Alive()
      ensures old(trace) <= trace
      ensures alive ==> trace == old(trace) + HandsPart(cfg, hasHands) + PassthroughPart(cfg, waits)
      ensures alive && cfg.resetHands && hasHands ==> handsRunning
    {
      waits := 0;
      alive := true;
      if cfg.resetHands && hasHands {
        alive := RestartHands();
        if !alive {
          return;
        }
      }
      ghost var t1 := trace;
      ghost var running := handsRunning;
      if cfg.resetPassthrough {
        alive, waits := CyclePassthrough();
        if !alive {
          return;
        }
      }
    }

    /** `DoSoftReset`: restart the hands if asked and present, cycle
        passthrough if asked, then count the reset and record when it began,
        measured from the start of the test (warmup included). */
    method DoSoftReset() returns (alive: bool, waits: nat)
      requires Valid() && Alive() && TelemetryValid()
      modifies this`frame, this`trace, this`handsRunning, this`resetCount, this`lastResetAtMs, this`phase
      ensures Valid() && TelemetryValid() && old(frame) <= frame && alive == Alive()
      ensures old(resetCount) <= resetCount && old(lastResetAtMs) <= lastResetAtMs
      ensures old(trace) <= trace
      ensures alive ==> resetCount == old(resetCount) + 1
                        && lastResetAtMs == clock[old(frame)] - startedAtRealtime
                        && trace == old(trace) + ResetTrace(cfg, hasHands, lastResetAtMs, resetCount, waits)
                        && phase == Running
      ensures alive && cfg.resetHands && hasHands ==> handsRunning
      ensures !alive ==> resetCount == old(resetCount) && lastResetAtMs == old(lastResetAtMs) && phase == Resetting
    {
      var tNow := Now() - startedAtRealtime;
      phase := Resetting;
      trace := trace + [ResetBegun(tNow)];
      alive, waits := ResetParts();
      if !alive {
        return;
      }
      ClockMonotone(old(frame), frame);
      resetCount := resetCount + 1;
      lastResetAtMs := tNow;
      trace := trace + [ResetCompleted(resetCount, lastResetAtMs)];
      phase := Running;
      AppendResetTrace(old(trace), cfg, hasHands, tNow, resetCount, waits);
    }

    /** The catch-up loop of the main run: with `elapsed` read once, fire
        resets back to back, advancing the deadline by one interval after
        each, until the deadline is past `elapsed`. */
    method CatchUp(elapsed: int, deadline: int) returns (next: int, alive: bool)
      requires Valid() && Alive() && TelemetryValid() && SoftResetActive(cfg) && phase == Running
      modifies this`frame, this`trace, this`handsRunning, this`resetCount, this`lastResetAtMs, this`phase
      ensures Valid() && TelemetryValid() && old(frame) <= frame && alive == Alive()
      ensures if alive then phase == Running else phase == Resetting
      ensures old(resetCount) <= resetCount && old(lastResetAtMs) <= lastResetAtMs
      ensures old(trace) <= trace
      ensures resetCount - old(resetCount) <= ResetsDue(elapsed, deadline, ResetIntervalMs(cfg))
      ensures alive ==> resetCount == old(resetCount) + ResetsDue(elapsed, deadline, ResetIntervalMs(cfg))
                        && next == deadline + ResetsDue(elapsed, deadline, ResetIntervalMs(cfg)) * ResetIntervalMs(cfg)
                        && next > elapsed
    {
      var interval := ResetIntervalMs(cfg);
      ActiveIntervalPositive(cfg);
      ghost var k := ResetsDue(elapsed, deadline, interval);
      alive := true;
      next := deadline;
      ghost var n: nat := 0;
      ResetsDueCounts(elapsed, deadline, interval, 0);
      while elapsed >= next
        invariant Valid() && Alive() && TelemetryValid() && old(frame) <= frame && phase == Running
        invariant old(lastResetAtMs) <= lastResetAtMs && old(trace) <= trace
        invariant next == deadline + n * interval && resetCount == old(resetCount) + n
        invariant n <= k && (elapsed >= next <==> n < k)
        decreases elapsed - next
      {
        var waits;
        alive, waits := DoSoftReset();
        if !alive {
          return;
        }
        next := next + interval;
        n := n + 1;
        ResetsDueCounts(elapsed, deadline, interval, n);
      }
    }

    /** One frame's look at the reset schedule of the main run: when the
        deadline is due, catch up. The deadlines are the multiples of the
        interval; with `n` resets done since `base`, the next one is the
        (n+1)-th multiple, and afterwards `elapsed` lies before it. */
    method CheckResets(elapsed: int, next: Deadline, ghost base: int) returns (next': Deadline, alive: bool)
      requires Valid() && Alive() && TelemetryValid() && phase == Running && base <= resetCount
      requires SoftResetActive(cfg) ==>
                 var n := resetCount - base;
                 next == At((n + 1) * ResetIntervalMs(cfg)) && n * ResetIntervalMs(cfg) <= elapsed
      requires !SoftResetActive(cfg) ==> next == Never
      modifies this`frame, this`trace, this`handsRunning, this`resetCount, this`lastResetAtMs, this`phase
      ensures Valid() && TelemetryValid() && old(frame) <= frame && alive == Alive()
      ensures old(resetCount) <= resetCount && old(lastResetAtMs) <= lastResetAtMs
      ensures old(trace) <= trace
      ensures if alive then phase == Running else phase == Resetting
      ensures alive && SoftResetActive(cfg) ==>
                var n := resetCount - base;
                next' == At((n + 1) * ResetIntervalMs(cfg))
                && n * ResetIntervalMs(cfg) <= elapsed < (n + 1) * ResetIntervalMs(cfg)
      ensures !SoftResetActive(cfg) ==>
                next' == Never && alive && frame == old(frame) && trace == old(trace)
                && resetCount == old(resetCount) && lastResetAtMs == old(lastResetAtMs)
    {
      next' := next;
      alive := true;
      if SoftResetActive(cfg) && Due(next, elapsed) {
        var interval := ResetIntervalMs(cfg);
        ActiveIntervalPositive(cfg);
        AdvanceBracket(elapsed, resetCount - base, interval);
        var t;
        t, alive := CatchUp(elapsed, next.ms);
        next' := At(t);
      }
    }

    /** One pass of the main run's loop: read the elapsed time, look at the
        reset schedule, end the frame. */
    method MainFrame(start: int, next: Deadline, ghost n: int, ghost base: int)
      returns (elapsed: int, next': Deadline, alive: bool)
      requires Valid() && Alive() && TelemetryValid() && phase == Running
      requires start <= Now() && 0 <= n == resetCount - base
      requires SoftResetActive(cfg) ==>
                 next == At((n + 1) * ResetIntervalMs(cfg)) && n * ResetIntervalMs(cfg) <= Now() - start
      requires !SoftResetActive(cfg) ==> next == Never
      modifies this`frame, this`trace, this`handsRunning, this`resetCount, this`lastResetAtMs, this`phase
      ensures Valid() && TelemetryValid() && old(frame) < frame && alive == Alive()
      ensures elapsed == old(Now()) - start
      ensures old(resetCount) <= resetCount && old(lastResetAtMs) <= lastResetAtMs
      ensures old(trace) <= trace
      ensures alive ==> phase == Running && elapsed <= Now() - start
      ensures !alive ==> phase in {Running, Resetting}
      ensures alive && SoftResetActive(cfg) ==>
                var n' := resetCount - base;
                next' == At((n' + 1) * ResetIntervalMs(cfg))
                && n' * ResetIntervalMs(cfg) <= elapsed < (n' + 1) * ResetIntervalMs(cfg)
      ensures !SoftResetActive(cfg) ==>
                next' == Never && resetCount == old(resetCount) && lastResetAtMs == old(lastResetAtMs)
    {
      elapsed := Now() - start;
      next', alive := CheckResets(elapsed, next, base);
      if !alive {
        return;
      }
      ghost var before := frame;
      alive := Yield();
      if alive {
        ClockMonotone(before, frame);
      }
    }

    /** The main run of `RunTest`, after warmup: read the elapsed time each
        frame, catch up on due resets, yield; stop once a reading reached the
        run duration. `elapsed` is the last reading taken. */
    method MainRun() returns (completed: bool, elapsed: int)
      requires Valid() && Alive() && TelemetryValid()
      modifies this`frame, this`trace, this`handsRunning, this`resetCount, this`lastResetAtMs, this`phase
      ensures Valid() && TelemetryValid() && old(frame) <= frame
      ensures old(resetCount) <= resetCount && old(lastResetAtMs) <= lastResetAtMs
      ensures old(trace) + [Line(EnteringLine)] <= trace
      ensures completed ==> Alive() && phase == Completed && elapsed >= MinutesToMs(cfg.runMinutes)
                            && |trace| > 0 && trace[|trace| - 1] == Line(CompletedLine)
      ensures !completed ==> frame == |clock| && phase in {Running, Resetting}
      ensures completed && SoftResetActive(cfg) ==>
                resetCount == old(resetCount) + elapsed / ResetIntervalMs(cfg)
      ensures !SoftResetActive(cfg) ==> resetCount == old(resetCount) && lastResetAtMs == old(lastResetAtMs)
      ensures MinutesToMs(cfg.runMinutes) == 0 ==>
                completed && frame == old(frame) && trace == old(trace) + [Line(EnteringLine), Line(CompletedLine)]
    {
      trace := trace + [Line(EnteringLine)];
      phase := Running;
      var start := Now();
      elapsed := 0;
      var total := MinutesToMs(cfg.runMinutes);
      var next := FirstDeadline(cfg, Now() - start);
      var interval := ResetIntervalMs(cfg);
      if SoftResetActive(cfg) {
        ActiveIntervalPositive(cfg);
      }
      ghost var base := resetCount;
      ghost var n := 0;
      ghost var f0 := frame;
      while elapsed < total
        invariant Valid() && Alive() && TelemetryValid() && f0 <= frame
        invariant start == clock[f0] && 0 <= elapsed <= Now() - start
        invariant n == resetCount - base && 0 <= n && old(lastResetAtMs) <= lastResetAtMs
        invariant old(trace) + [Line(EnteringLine)] <= trace && phase == Running
        invariant total == 0 ==> frame == f0 && trace == old(trace) + [Line(EnteringLine)]
        invariant SoftResetActive(cfg) ==>
                    next == At((n + 1) * interval) && n * interval <= elapsed < (n + 1) * interval
        invariant !SoftResetActive(cfg) ==>
                    next == Never && resetCount == old(resetCount) && lastResetAtMs == old(lastResetAtMs)
        decreases |clock| - frame
      {
        var alive;
        elapsed, next, alive := MainFrame(start, next, n, base);
        n := resetCount - base;
        if !alive {
          completed := false;
          return;
        }
        ClockMonotone(f0, frame);
      }
      if SoftResetActive(cfg) {
        DivBracket(elapsed, n, interval);
      }
      trace := trace + [Line(CompletedLine)];
      phase := Completed;
      completed := true;
    }

    /** `RunTest`: reset the telemetry, apply the scenario and warm up, then
        the main run. A completed test has logged the warmup, entered the
        main run, run for at least the configured time and, with soft resets
        on, made one reset per whole interval of that time. `warmFrames` is
        the number of frames the warmup lasted. */
    method RunTest() returns (completed: bool, elapsed: int, ghost warmFrames: nat)
      requires Valid() && Alive()
      modifies this`frame, this`trace, this`handsRunning, this`resetCount, this`lastResetAtMs,
               this`startedAtRealtime, this`phase
      ensures Valid() && TelemetryValid()
      ensures startedAtRealtime == clock[old(frame)]
      ensures old(trace) + [Line(ApplyingLine)] <= trace
      ensures completed ==> Alive() && phase == Completed && |trace| > 0 && trace[|trace| - 1] == Line(CompletedLine)
      ensures completed ==> old(trace) + WarmupTrace(cfg, hasHands, old(handsRunning), warmFrames)
                            + [Line(EnteringLine)] <= trace
      ensures completed ==> elapsed >= MinutesToMs(cfg.runMinutes)
      ensures completed && SoftResetActive(cfg) ==> resetCount == elapsed / ResetIntervalMs(cfg)
      ensures !completed ==> frame == |clock| && phase in {Warmup, Running, Resetting}
      ensures !SoftResetActive(cfg) ==> resetCount == 0 && lastResetAtMs == -1
    {
      startedAtRealtime := Now();
      resetCount := 0;
      lastResetAtMs := -1;
      ghost var f0 := frame;
      var alive := ApplyScenarioAndWarmup();
      warmFrames := frame - f0;
      elapsed := 0;
      if !alive {
        completed := false;
        return;
      }
      completed, elapsed := MainRun();
    }

    /** `OnDisable`: stop the coroutine, shut passthrough down, log. The
        adapter reference is never null once enabled, so the shutdown call is
        always made, whatever the phase. */
    method Disable()
      modifies this`trace, this`phase
      ensures phase == Disabled
      ensures trace == old(trace) + [Adapter(ShutdownAll), Line(DisabledLine)]
    {
      phase := Disabled;
      trace := trace + [Adapter(ShutdownAll), Line(DisabledLine)];
    }
  }
}
