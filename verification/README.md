# Hand + passthrough soak-test harness, modelled in Dafny

This project models the logic of a Unity soak-test harness for a headset's
hand tracking and passthrough camera pipeline. The harness has these parts:

- **Runner (`StabilityTestRunner`).** It applies a test scenario (which
  passthrough modes are on), warms up, then runs for the configured time.
  Every N minutes it fires a "soft reset": the hand subsystem is stopped and
  started again, and passthrough is switched off and the scenario is
  reapplied. When a stall makes it miss several reset deadlines, it fires
  every missed reset back to back.
- **On-device HUD (`TestHUD`).** It classifies every console message into
  counters for warnings, errors, flags and NaN poses. It remembers the last
  flagged message and when it came, shows the countdown to the next soft
  reset, and toggles its visibility when the B button goes down.
- **Durable log sink (`LogFile`).** One file per process. It is created
  lazily and at most once, and every other part appends time-stamped lines
  to it.
- **Console hook (`FrameLogHook`).** It copies warnings, errors and
  exceptions into the file and adds a `[FLAG]` line for four known
  patterns.
- **Pose guard (`HandPoseNaNGuard`).** Every frame it looks at six joints of
  each tracked hand and reports each joint whose position has a NaN
  coordinate.
- **Heartbeat (`HeartbeatLogger`).** It writes a tick line every `interval`
  seconds of unscaled time.
- **Two passthrough adapters.** The Oculus Integration layer adapter and the
  Meta OpenXR controller adapter implement the four calls of
  `IPassthroughAdapter`. Each has a stub variant that is compiled when its
  backend is absent.

Files:

| file | module | models |
|---|---|---|
| `common.dfy` | `Common` | console severities, `string.Contains` and prefixes |
| `log_file.dfy` | `LogSink` | `LogFile` |
| `passthrough.dfy` | `Passthrough` | `IPassthroughAdapter`, both adapters and their stubs |
| `stability_test_runner.dfy` | `Stability` | `StabilityTestRunner` |
| `test_hud.dfy` | `Hud` | `TestHUD` |
| `frame_log_hook.dfy` | `Hook` | `FrameLogHook` |
| `hand_pose_nan_guard.dfy` | `NaNGuard` | `HandPoseNaNGuard` |
| `heartbeat_logger.dfy` | `Heartbeat` | `HeartbeatLogger` |

How the model is built:

- Each component whose fields the source updates is a class, and its methods
  are proved against specification functions.
- The log file is a `seq<string>` of entries. `FileAfter` gives the file
  after any batch of `WriteLine` calls, and every producer's contract is
  stated through it.
- Coroutines are methods that consume a non-decreasing sequence of clock
  readings, one per frame, in milliseconds. Each `yield return null` moves
  to the next reading. When the readings run out, the coroutine stays
  suspended.
- What the runner does is recorded in order as a trace of events: log lines,
  hand-subsystem calls, adapter calls and frame ends.
- The HUD and the heartbeat keep time in `real` seconds.

Two behaviours of the code that the model keeps as they are:

- **The pose guard detects NaN only.** Infinite coordinates pass unreported.
  The guard never touches the HUD's counters directly. The HUD counts its
  reports because they arrive as console warnings carrying `[HAND_NaN]`
  (`NaNGuard.HudCountsWarnings`).
- **The HUD computes its own reset countdown.** It does not read the runner's
  deadline. The countdown is measured from the HUD's own session start
  (`OnEnable`), not from the start of the runner's main run, and runs to the
  next whole multiple of the cadence.

## Model

| member | source | states |
|---|---|---|
| `Common.ContainsIffOccurs` | HandPassthroughStability/TestHUD.cs:243-250 | `Contains(s, p)` holds exactly when `p` occurs at some position of `s`: the case-sensitive substring test the classifiers use |
| `LogSink.LogPath` | HandPassthroughStability/LogFile.cs:21-24 | the log path is `{persistentDataPath}/logs/{prefix}_` followed by the stamp, and ends in `.log` |
| `LogSink.EntryRoundTrip` | HandPassthroughStability/LogFile.cs:35-36 | an entry `[ts] line\n` parses back into its stamp and its line, for any stamp without `]` |
| `LogSink.Entries` | HandPassthroughStability/LogFile.cs:36 | one entry per written line, in order, each with the same stamp |
| `LogSink.FileAfterSnoc` | HandPassthroughStability/LogFile.cs:30-37 | one more write appends exactly one entry once the sink is initialised, and is the first write otherwise |
| `LogSink.FileAfterAppend` | HandPassthroughStability/LogFile.cs:30-37 | writing batch `a` then batch `b` gives the same file as writing `a + b` |
| `LogSink.LogFile.constructor` | HandPassthroughStability/LogFile.cs:11-14 | the static state starts uninitialised, with an empty file |
| `LogSink.LogFile.Init` | HandPassthroughStability/LogFile.cs:18-28 | once initialised, `Init` changes nothing. The first call fixes the directory and the path `{dir}/{prefix}_{ts}.log` and writes exactly `[INIT]` then `[ENV]`. The flag is set before those writes, so they do not initialise again |
| `LogSink.LogFile.WriteLine` | HandPassthroughStability/LogFile.cs:30-38 | on an uninitialised sink it first initialises with the default prefix. It then appends exactly one entry `[ts] line\n` at the end. Earlier entries, the directory and the path stay as they were |
| `Passthrough.CompositionRules` | HandPassthroughStability/OculusIntegrationPassthroughAdapter.cs:34-43 | in the interface contract, `SetBoth(r, d)` is `SetRGB(r)` then `SetDepth(d)` and `ShutdownAll` is `SetBoth(false, false)`. The mode after `SetBoth` does not depend on the mode before |
| `Passthrough.SetBothIdempotent` | HandPassthroughStability/OculusIntegrationPassthroughAdapter.cs:34-38 | `SetBoth(r, d)` twice is `SetBoth(r, d)` once |
| `Passthrough.ModeAfterAllAppend` | HandPassthroughStability/IPassthroughAdapter.cs:7-10 | running two call sequences in turn is running their concatenation |
| `Passthrough.LayerImplementsContract` | HandPassthroughStability/OculusIntegrationPassthroughAdapter.cs:20-43 | for every call, the mode read off the layer (`!hidden`, `edgeRenderingEnabled`) after the call is the mode the interface contract gives |
| `Passthrough.OculusIntegrationPassthroughAdapter.constructor` | HandPassthroughStability/OculusIntegrationPassthroughAdapter.cs:13-18 | the adapter keeps the layer found in the scene, or null. It is available exactly when the layer is not null |
| `Passthrough.OculusIntegrationPassthroughAdapter.SetRGB` | HandPassthroughStability/OculusIntegrationPassthroughAdapter.cs:20-25 | with a layer, it sets `hidden = !enabled` and leaves `edgeRenderingEnabled`. Without a layer it changes nothing |
| `Passthrough.OculusIntegrationPassthroughAdapter.SetDepth` | HandPassthroughStability/OculusIntegrationPassthroughAdapter.cs:27-32 | with a layer, it sets `edgeRenderingEnabled = enabled` and leaves `hidden`. Without a layer it changes nothing |
| `Passthrough.OculusIntegrationPassthroughAdapter.SetBoth` | HandPassthroughStability/OculusIntegrationPassthroughAdapter.cs:34-38 | it ends with `hidden = !rgb` and `edgeRenderingEnabled = depth`, the state the contract's `SetBoth` gives |
| `Passthrough.OculusIntegrationPassthroughAdapter.ShutdownAll` | HandPassthroughStability/OculusIntegrationPassthroughAdapter.cs:40-43 | an available layer ends hidden and without edge rendering |
| `Passthrough.OculusIntegrationPassthroughAdapterStub.constructor` | HandPassthroughStability/OculusIntegrationPassthroughAdapter.cs:46-53 | the stub is never available. Its four calls have no frame, so they change nothing |
| `Passthrough.MetaPassthroughController.EnableRGB` | HandPassthroughStability/OpenXRMetaPassthroughAdapter.cs:54-58 | the controller records exactly one RGB toggle |
| `Passthrough.MetaPassthroughController.EnableDepth` | HandPassthroughStability/OpenXRMetaPassthroughAdapter.cs:60-64 | the controller records exactly one depth toggle |
| `Passthrough.ControllerModeAppend` | HandPassthroughStability/OpenXRMetaPassthroughAdapter.cs:52-65 | the controller's mode after two runs of toggles is the mode after their concatenation |
| `Passthrough.ControllerImplementsContract` | HandPassthroughStability/OpenXRMetaPassthroughAdapter.cs:23-47 | whatever toggles came before, the toggles an adapter call issues move the controller's mode as the interface contract says |
| `Passthrough.OpenXRMetaPassthroughAdapter.constructor` | HandPassthroughStability/OpenXRMetaPassthroughAdapter.cs:16-21 | the adapter keeps the controller found in the scene, or null. It is available exactly when the controller is not null |
| `Passthrough.OpenXRMetaPassthroughAdapter.SetRGB` | HandPassthroughStability/OpenXRMetaPassthroughAdapter.cs:23-27 | with a controller, it issues exactly `EnableRGB(enabled)` |
| `Passthrough.OpenXRMetaPassthroughAdapter.SetDepth` | HandPassthroughStability/OpenXRMetaPassthroughAdapter.cs:29-33 | with a controller, it issues exactly `EnableDepth(enabled)` |
| `Passthrough.OpenXRMetaPassthroughAdapter.SetBoth` | HandPassthroughStability/OpenXRMetaPassthroughAdapter.cs:35-40 | it issues `EnableRGB(r)` then `EnableDepth(d)`: the calls of `SetRGB(r)` followed by those of `SetDepth(d)` |
| `Passthrough.OpenXRMetaPassthroughAdapter.ShutdownAll` | HandPassthroughStability/OpenXRMetaPassthroughAdapter.cs:42-47 | it issues `EnableRGB(false)` then `EnableDepth(false)`: the calls of `SetBoth(false, false)` |
| `Passthrough.OpenXRMetaPassthroughAdapterStub.constructor` | HandPassthroughStability/OpenXRMetaPassthroughAdapter.cs:67-74 | the stub is never available. Its four calls have no frame, so they change nothing |
| `Stability.ScenarioMode` | HandPassthroughStability/StabilityTestRunner.cs:136-150 | RGB is on exactly for the two RGB scenarios, and depth is on exactly for the two depth scenarios |
| `Stability.ScenarioModeBijective` | HandPassthroughStability/StabilityTestRunner.cs:136-150 | the scenario mapping is total, one-to-one and onto the four mode pairs |
| `Stability.ScenarioCall` | HandPassthroughStability/StabilityTestRunner.cs:136-150 | hands only gives `ShutdownAll`. Every other scenario gives one `SetBoth` whose two flags are the scenario's RGB and depth modes |
| `Stability.ScenarioCallSetsMode` | HandPassthroughStability/StabilityTestRunner.cs:185-199 | from any mode, the scenario's call (`ShutdownAll` or `SetBoth`) leaves the backend in the scenario's mode |
| `Stability.MinutesToMs` | HandPassthroughStability/StabilityTestRunner.cs:93 | a non-positive duration clamps to 0. Otherwise the result is `minutes * 60` seconds, in whole milliseconds |
| `Stability.ActiveIntervalPositive` | HandPassthroughStability/StabilityTestRunner.cs:105 | an active reset cadence (above 0.01 minutes) is at least 600 ms, so every reset moves the deadline forward |
| `Stability.FirstDeadline` | HandPassthroughStability/StabilityTestRunner.cs:96-98 | there is a deadline exactly when soft reset is enabled with `resetEveryMinutes > 0.01`, and then it is one interval after the main-run start. Otherwise it is +infinity |
| `Stability.ResetsDueCounts` | HandPassthroughStability/StabilityTestRunner.cs:105-112 | the catch-up count is the number of deadlines `d`, `d + I`, ... that `elapsed` has reached: the n-th is reached exactly when n is below the count |
| `Stability.ResetsDueBracket` | HandPassthroughStability/StabilityTestRunner.cs:105-112 | after the catch-up, the deadline is past `elapsed` and the one before it was not |
| `Stability.AdvanceBracket` | HandPassthroughStability/StabilityTestRunner.cs:105-112 | with the deadlines at the multiples of the interval, a due catch-up leaves `elapsed` between the deadline just passed and the new one |
| `Stability.CatchUpExample` | HandPassthroughStability/StabilityTestRunner.cs:105-112 | with a 10 s cadence and elapsed jumping from 9 s to 35 s, three resets fire and the next deadline is 40 s |
| `Stability.ResetAdapterCalls` | HandPassthroughStability/StabilityTestRunner.cs:177-201 | a soft reset calls the adapter only when `resetPassthrough` is set, and then exactly `ShutdownAll` followed by the scenario's call |
| `Stability.ResetRestoresScenarioMode` | HandPassthroughStability/StabilityTestRunner.cs:177-201 | after a passthrough reset the backend is in the scenario's mode, whatever mode it was in before |
| `Stability.StabilityTestRunner.constructor` | HandPassthroughStability/StabilityTestRunner.cs:49-56 | `Awake` first initialises the sink with prefix `quest_hand_passthrough`: on a fresh sink that fixes the path and writes `[INIT]` then `[ENV]`, and on an initialised one it changes nothing. It then logs the awake line and the configuration. The telemetry starts at count 0 and last reset -1 |
| `Stability.StabilityTestRunner.Yield` | HandPassthroughStability/StabilityTestRunner.cs:115 | a frame ends: the next clock reading becomes the current time |
| `Stability.StabilityTestRunner.WaitUntil` | HandPassthroughStability/StabilityTestRunner.cs:154-155 | it yields through exactly the frames whose time is before `end`, and stops at the first frame that is not |
| `Stability.StabilityTestRunner.ApplyScenarioAndWarmup` | HandPassthroughStability/StabilityTestRunner.cs:122-159 | it logs, starts the hands only when they are present and stopped, then makes the scenario's adapter call. It holds until `max(0, warmup)` minutes have passed, then logs completion. A completed warmup appends exactly `WarmupTrace` for the frames it waited |
| `Stability.StabilityTestRunner.RestartHands` | HandPassthroughStability/StabilityTestRunner.cs:168-175 | Stop, one frame, Start, with the log lines around them |
| `Stability.StabilityTestRunner.CyclePassthrough` | HandPassthroughStability/StabilityTestRunner.cs:177-201 | `ShutdownAll`, then frames until 250 ms have passed (at least one), then the scenario's call and the restored line |
| `Stability.StabilityTestRunner.ResetParts` | HandPassthroughStability/StabilityTestRunner.cs:168-201 | the hands part, present only when asked for and the subsystem exists, precedes the passthrough part, present only when asked for |
| `Stability.StabilityTestRunner.DoSoftReset` | HandPassthroughStability/StabilityTestRunner.cs:161-208 | a completed reset appends exactly the reset trace and raises `resetCount` by one. It sets `lastResetAt` to its start time, measured from the test start (warmup included). The telemetry invariant holds, and both fields are non-decreasing |
| `Stability.StabilityTestRunner.CatchUp` | HandPassthroughStability/StabilityTestRunner.cs:105-112 | with `elapsed` read once, exactly `floor((elapsed - d) / I) + 1` resets fire, or none when not due. The deadline advances by that many intervals and ends past `elapsed` |
| `Stability.StabilityTestRunner.CheckResets` | HandPassthroughStability/StabilityTestRunner.cs:105-113 | a frame's look at the schedule keeps the deadline at the multiple of the interval just after `elapsed`. With soft reset off it does nothing |
| `Stability.StabilityTestRunner.MainFrame` | HandPassthroughStability/StabilityTestRunner.cs:100-116 | one pass of the main loop reads `elapsed`, catches up and ends the frame, keeping the schedule invariant |
| `Stability.StabilityTestRunner.MainRun` | HandPassthroughStability/StabilityTestRunner.cs:88-119 | the entering line comes first. A completed run ends with `elapsed` at least the run time and the completed line last. With soft reset active it fired exactly `elapsed / I` resets. With soft reset off no reset fires. A zero run time skips the loop |
| `Stability.StabilityTestRunner.RunTest` | HandPassthroughStability/StabilityTestRunner.cs:80-120 | it records the start time and resets the telemetry, then warms up and runs. A completed test's trace holds the warmup events, then the entering line, and ends with the completed line. Its `elapsed` is at least the run time, and with soft reset active `resetCount` is exactly `elapsed / I`. The telemetry invariant holds throughout, and with soft reset off the count stays 0 and the last reset stays -1 |
| `Stability.StabilityTestRunner.Disable` | HandPassthroughStability/StabilityTestRunner.cs:73-78 | in any phase, it calls `ShutdownAll` then writes the disabled line |
| `Hud.Trim` | HandPassthroughStability/TestHUD.cs:271-276 | an empty message gives "-". One that fits is returned unchanged. A longer one gives its first `max - 3` characters and "...", exactly `max` long |
| `Hud.WholeSeconds` | HandPassthroughStability/TestHUD.cs:263-264 | negative input counts as 0. Otherwise the result is the floor of the seconds |
| `Hud.Split` | HandPassthroughStability/TestHUD.cs:265-267 | minutes and seconds are below 60, and `h*3600 + m*60 + s` is the total |
| `Hud.SplitUnique` | HandPassthroughStability/TestHUD.cs:265-267 | that decomposition is the only one with minutes and seconds below 60 |
| `Hud.D2RoundTrip` | HandPassthroughStability/TestHUD.cs:268 | the two-digit padded text reads back as the number |
| `Hud.DisplayRoundTrip` | HandPassthroughStability/TestHUD.cs:268 | the display `hh:mm:ss` (when there are hours) or `mm:ss` reads back as the fields it was made from |
| `Hud.ToHmsRoundTrip` | HandPassthroughStability/TestHUD.cs:261-269 | the text of a duration reads back as the hours (when shown), minutes and seconds of its clamped whole seconds |
| `Hud.ToHmsLength` | HandPassthroughStability/TestHUD.cs:268 | below 100 hours the text is 5 characters without hours and 8 with them |
| `Hud.ResetEta` | HandPassthroughStability/TestHUD.cs:128-135 | a countdown is shown exactly when soft reset is enabled with `resetEveryMinutes > 0.01` |
| `Hud.EtaNextMultiple` | HandPassthroughStability/TestHUD.cs:130-132 | the countdown is above 0 and at most one cadence. It runs to the first multiple of the cadence strictly after `elapsed` |
| `Hud.Classify` | HandPassthroughStability/TestHUD.cs:239-251 | a message counts as a warning exactly when it is one, and as an error exactly for Error and Exception. It counts as a NaN pose exactly for the two NaN markers, and as one flag exactly when any of the seven patterns occurs. No count exceeds one |
| `Hud.TallyBounds` | HandPassthroughStability/TestHUD.cs:237-259 | over any messages, NaN poses ≤ flags ≤ messages, and warnings + errors ≤ messages |
| `Hud.LastFlagged` | HandPassthroughStability/TestHUD.cs:253-258 | the last-flag message, when there is one, is a flagged message |
| `Hud.NoFlagIffNoLastFlag` | HandPassthroughStability/TestHUD.cs:253-258 | the flag count is zero exactly when there is no last flag |
| `Hud.NoLastFlagIffNoneFlagged` | HandPassthroughStability/TestHUD.cs:253-258 | there is no last flag exactly when no message was flagged |
| `Hud.TallySnoc` | HandPassthroughStability/TestHUD.cs:237-259 | one more message adds its own counts. When it is flagged it becomes the last flag, and otherwise the last flag stays |
| `Hud.TallySnocNaN` | HandPassthroughStability/TestHUD.cs:239-255 | a NaN warning adds one warning, one flag and one NaN pose, and no error |
| `Hud.AccountsSnoc` | HandPassthroughStability/TestHUD.cs:237-259 | the way `OnLog` updates its fields keeps them equal to the tally and last flag of every message seen, with a last-flag time that is never negative once there is a flag |
| `Hud.HeldButtonIsOnePress` | HandPassthroughStability/TestHUD.cs:218-224 | holding B down over any number of polls reports one press, on the first poll only, and only if it was up before |
| `Hud.TestHUD.constructor` | HandPassthroughStability/TestHUD.cs:52-61 | counters at zero, last flag "-" and -1, visible as configured, not subscribed |
| `Hud.TestHUD.OnEnable` | HandPassthroughStability/TestHUD.cs:63-66 | it subscribes and starts the session clock |
| `Hud.TestHUD.OnDisable` | HandPassthroughStability/TestHUD.cs:84-87 | it unsubscribes |
| `Hud.TestHUD.OnLog` | HandPassthroughStability/TestHUD.cs:237-259 | for a clock reading not before the session start: Warning adds 1 to the warning count, and Error or Exception add 1 to the error count. A NaN marker adds 1 to the NaN count. Any of the seven patterns adds exactly 1 to the flags and records the message trimmed to 140 with its session time. Otherwise the last flag is unchanged. The counters stay the tally of every message seen |
| `Hud.TestHUD.CountSeverity` | HandPassthroughStability/TestHUD.cs:239-240 | Warning adds one warning, Error or Exception add one error, and any other type changes neither |
| `Hud.TestHUD.CountPatterns` | HandPassthroughStability/TestHUD.cs:242-258 | NaN markers add a NaN pose. Any pattern adds one flag and sets the last flag, and no pattern leaves the last flag as it was |
| `Hud.TestHUD.Receive` | HandPassthroughStability/TestHUD.cs:65 | only a subscribed HUD sees a console message. An unsubscribed one is unchanged |
| `Hud.TestHUD.PollSecondaryButton` | HandPassthroughStability/TestHUD.cs:216-227 | a press is reported only when B is down now and was up at the previous poll. An invalid device or a missing reading resets the previous state to up |
| `Hud.TestHUD.Compose` | HandPassthroughStability/TestHUD.cs:115-157 | the countdown line is there exactly when a runner has soft reset active. The last-flag time is shown exactly when some message seen so far was flagged |
| `Hud.TestHUD.Update` | HandPassthroughStability/TestHUD.cs:95-113 | the counters keep accounting for the messages seen. Visibility flips exactly on a B press. Within the refresh interval nothing is rebuilt and the schedule stays. Otherwise the next refresh is `now + interval`, and the status is composed exactly when there is a visible output |
| `Hook.HookLines` | HandPassthroughStability/FrameLogHook.cs:21-37 | the severity line is written exactly for Warning, Error and Exception. The `[FLAG]` line is written exactly when one of the four patterns occurs, once however many match. Each call writes 0, 1 or 2 lines, severity first |
| `Hook.HookFlagIsHudFlag` | HandPassthroughStability/FrameLogHook.cs:30-33 | every message the hook flags, the HUD flags too |
| `Hook.FrameLogHook.constructor` | HandPassthroughStability/FrameLogHook.cs:6 | a hook starts unsubscribed |
| `Hook.FrameLogHook.OnEnable` | HandPassthroughStability/FrameLogHook.cs:8-13 | it initialises the sink with the default prefix before writing the attached line, and subscribes |
| `Hook.FrameLogHook.OnDisable` | HandPassthroughStability/FrameLogHook.cs:15-19 | it unsubscribes and writes the detached line |
| `Hook.FrameLogHook.HandleLog` | HandPassthroughStability/FrameLogHook.cs:21-37 | the file grows by exactly the message's hook lines, in order. The sink ends initialised exactly when it was or a line was written. A message with none leaves the sink untouched |
| `Hook.FrameLogHook.Receive` | HandPassthroughStability/FrameLogHook.cs:11 | only a subscribed hook writes anything for a console message |
| `NaNGuard.Report` | HandPassthroughStability/HandPoseNaNGuard.cs:47 | each report starts with `[HAND_NaN] {side} {joint}` |
| `NaNGuard.NaNJoints` | HandPassthroughStability/HandPoseNaNGuard.cs:39-50 | at most one entry per joint looked at. Each entry has a resolvable pose with a NaN coordinate |
| `NaNGuard.Reports` | HandPassthroughStability/HandPoseNaNGuard.cs:39-50 | one report per NaN joint |
| `NaNGuard.NaNJointsIff` | HandPassthroughStability/HandPoseNaNGuard.cs:42-45 | a joint is reported exactly when it is looked at, its pose resolves and a coordinate is NaN |
| `NaNGuard.NaNJointsOrdered` | HandPassthroughStability/HandPoseNaNGuard.cs:39 | reports come in the order the joints are looked at, so no joint is reported twice |
| `NaNGuard.CheckedJointsIff` | HandPassthroughStability/HandPoseNaNGuard.cs:14-18 | of a hand's joints, exactly the six fixed ones with a resolvable NaN pose are reported. Infinities are not reported |
| `NaNGuard.CheckedJointsOrdered` | HandPassthroughStability/HandPoseNaNGuard.cs:14-18 | the reports follow Wrist, IndexTip, MiddleTip, RingTip, LittleTip, ThumbTip |
| `NaNGuard.HandReportsSpec` | HandPassthroughStability/HandPoseNaNGuard.cs:35-52 | an untracked hand has no reports. A tracked one has one report per NaN joint, in order, at most six |
| `NaNGuard.HandReportsMarked` | HandPassthroughStability/HandPoseNaNGuard.cs:47 | every report of a hand starts with `[HAND_NaN]` |
| `NaNGuard.FrameReportsSpec` | HandPassthroughStability/HandPoseNaNGuard.cs:27-33 | at most twelve reports a frame, each a NaN marker for the HUD |
| `NaNGuard.AsWarnings` | HandPassthroughStability/HandPoseNaNGuard.cs:48 | each report reaches the console as one warning with the same text |
| `NaNGuard.HudCountsWarnings` | HandPassthroughStability/HandPoseNaNGuard.cs:48 | the HUD counts each report once as a warning, once as a flag and once as a NaN pose, and never as an error |
| `NaNGuard.EscapesHook` | HandPassthroughStability/FrameLogHook.cs:30-33 | a text without `F`, `c` or `K`, and with no `e` followed by `a`, matches none of the hook's four patterns |
| `NaNGuard.ReportNotHookFlagged` | HandPassthroughStability/HandPoseNaNGuard.cs:47 | for either side, every joint and coordinates printed as number text, a report is a NaN flag for the HUD but matches none of the hook's patterns. A subscribed hook therefore writes only its `[Warning]` line for it, and no `[FLAG]` line |
| `NaNGuard.FrameReportsNotHookFlagged` | HandPassthroughStability/HandPoseNaNGuard.cs:27-33 | no report of a frame matches a hook pattern |
| `NaNGuard.EchoedAppend` | HandPassthroughStability/HandPoseNaNGuard.cs:48-49 | the log lines of two batches of warnings in a row are those of their concatenation |
| `NaNGuard.EchoedUnhooked` | HandPassthroughStability/HandPoseNaNGuard.cs:48-49 | without a subscribed hook, the log gets exactly the warnings |
| `NaNGuard.EchoedInterleaved` | HandPassthroughStability/HandPoseNaNGuard.cs:48-49 | with a subscribed hook and warnings it does not flag, each warning reaches the log twice in a row: the hook's `[Warning]` copy, then the guard's own line |
| `NaNGuard.HandPoseNaNGuard.constructor` | HandPassthroughStability/HandPoseNaNGuard.cs:12 | a guard starts without a subsystem |
| `NaNGuard.HandPoseNaNGuard.OnEnable` | HandPassthroughStability/HandPoseNaNGuard.cs:20-25 | it remembers whether a subsystem was found, and warns exactly when none was. The warning reaches the file only through a subscribed hook |
| `NaNGuard.HandPoseNaNGuard.Warn` | HandPassthroughStability/HandPoseNaNGuard.cs:48-49 | the console warning comes first, so a subscribed hook's lines precede the guard's own line |
| `NaNGuard.HandPoseNaNGuard.CheckJoint` | HandPassthroughStability/HandPoseNaNGuard.cs:41-50 | a joint is reported exactly when its pose resolves with a NaN coordinate, and the file grows by that report's lines |
| `NaNGuard.HandPoseNaNGuard.CheckHand` | HandPassthroughStability/HandPoseNaNGuard.cs:35-52 | the warnings are the hand's reports. The file grows by exactly their lines in the same order, each report preceded by a subscribed hook's lines for it |
| `NaNGuard.HandPoseNaNGuard.Update` | HandPassthroughStability/HandPoseNaNGuard.cs:27-33 | nothing without a running subsystem. Otherwise the left hand's reports, then the right hand's, go to the console and the file in that order, each with a subscribed hook's lines before it |
| `Heartbeat.Step` | HandPassthroughStability/HearbeatLogger.cs:17-22 | a frame ticks exactly when the accumulated time reaches the interval. A tick resets the timer to 0 and drops the overshoot. Otherwise the timer holds the sum |
| `Heartbeat.StepKeepsRange` | HandPassthroughStability/HearbeatLogger.cs:17-22 | with a positive interval, the timer stays in `[0, interval)` |
| `Heartbeat.RunBounds` | HandPassthroughStability/HearbeatLogger.cs:15-23 | over any run of frames there is at most one tick a frame, however large the delta, and the timer stays below the interval |
| `Heartbeat.RunAccounting` | HandPassthroughStability/HearbeatLogger.cs:17-22 | `ticks * interval + t` never exceeds the start value plus the time that passed: each tick uses up at least a full interval |
| `Heartbeat.HeartbeatLogger.constructor` | HandPassthroughStability/HearbeatLogger.cs:8-9 | the timer starts at 0 with the configured interval |
| `Heartbeat.HeartbeatLogger.OnEnable` | HandPassthroughStability/HearbeatLogger.cs:10-14 | it initialises the sink with prefix `quest_hand_passthrough` (unless already initialised), then writes the enabled line |
| `Heartbeat.HeartbeatLogger.Update` | HandPassthroughStability/HearbeatLogger.cs:15-23 | the timer moves as `Step` says, and the file gains the tick line exactly when the frame ticks |

## Left out

- `ResourceMonitor` is not part of this model. It reads profiler memory
  counters and formats them as floating point.
- The editor window is not part of this model. It is editor UI only.
- `IPassthroughAdapter` is not a type of its own. Its contract is
  `Passthrough.ModeAfter` over the call datatype `PtCall`. Each adapter is a
  class with the four methods, linked to the contract by a lemma. The
  runner records the calls it makes instead of holding an adapter object.
- Floating point is not modelled:
  - the runner's minutes are `real`, and times are whole milliseconds;
  - the HUD and the heartbeat use `real` seconds;
  - single-precision rounding is not represented.
- `Stability.MinutesToMs`: floors the seconds to whole milliseconds, because
  32-bit float arithmetic is not modelled.
- `Heartbeat.Step`: adds exactly in `real`, because 32-bit float
  accumulation, where a tiny delta can be lost, is not modelled.
- The runner initialises the sink in `Awake`, but writes its log lines into
  its event trace, not through the sink. These are the awake line, the scenario line (`ConfigLogged`) and the
  reset begin and complete lines (`ResetBegun` and `ResetCompleted`, whose
  numbers are the event's fields). Their text formatting and the
  `Debug.Log` echoes are left out.
- The runner's two `OnEnable` warnings (no hand subsystem, no available
  adapter) are left out. They are console output.
- Discovery of collaborators is not modelled. This covers the hand
  subsystem, the scene's layer and controller, and the HUD's runner. Their
  presence is a constructor argument.
- The adapter reference is never null once the runner is enabled, so the
  passthrough block of a reset depends only on `resetPassthrough`.
  Availability matters only inside the adapter.
- Coroutine scheduling is not modelled:
  - `StartCoroutine` and `StopCoroutine` are left out;
  - a nested coroutine that ends resumes its parent in the same frame;
  - `Stability.StabilityTestRunner.Disable` marks the run stopped, and the
    model takes no further steps.
- The clock is read once per frame: each reading of the realtime clock
  within a frame gives the same value.
- LogFile's `lock` and any interleaving between threads are not modelled.
  Writes are sequential.
- File-system and clock calls are not modelled. The data path, the file-name
  stamp, the line stamp and the environment text come in as the `Host`
  parameter. All writes of one call share one line stamp.
- `string.IsNullOrEmpty` on a null string is not modelled, because strings
  are never null in the model. Empty input is handled as the source does.
- The HUD's rendering, `ApplyVisibility`, the XR Hands line and its OVR
  fallback are not modelled. Neither are the FPS accumulator, the memory
  lines, the subsystem and device lookups, or the OVR button path.
- The guard writes coordinates through a `show` parameter, because float
  text formatting is not modelled. Joints other than the six checked ones
  carry placeholder names and are never reported.
- `NaNGuard.ReportNotHookFlagged`: holds for coordinate text made of digits,
  signs, `.`, `,`, `E` and the letters of `NaN`, `Infinity` and `∞`. A culture
  whose number text uses other letters is not covered.
- `Hud.Trim`: counts characters as Unicode scalar values. C#'s `Length` and
  `Substring` count UTF-16 code units, so a message with characters outside
  the Basic Multilingual Plane is cut at a different place, and a cut can
  split a surrogate pair.
- `Hud.TestHUD.OnLog` and `Hud.TestHUD.Receive` take a clock reading that is
  not before the session start. The realtime clock never runs backwards, so
  a flag's session time is never negative.
- Console messages of the other components reach neither the hook nor the
  HUD in the model. The runner's and the adapters' `Debug.Log` lines are of
  severity Log and match no hook pattern, so a hook writes nothing for them.
  The runner's and the HUD's own warnings are console output that is left
  out.
- The guard's subsystem is modelled as a presence flag fixed at `OnEnable`
  plus a per-frame `HandsState` (running, and the two hands).
- The hook ignores the stack-trace argument, as the source does.
