/** The on-device status display (`TestHUD`): it classifies every console
    message into counters and a last-flag record, detects presses of the
    right controller's B button, and at most once per refresh interval
    composes the status lines. Times are real seconds, as the HUD reads
    them; the text rendering itself is outside the model. */
module Hud {
  import opened Common
  import opened Stability

  // ---------------------------------------------------------------------
  // Text helpers.

  /** `Trim(s, max)`: "-" for an empty message, the message itself when it
      fits, otherwise its first `max - 3` characters and an ellipsis. */
  function Trim(s: string, max: int): (r: string)
    requires max >= 3
    ensures |s| == 0 ==> r == "-"
    ensures 0 < |s| <= max ==> r == s
    ensures |s| > max ==> |r| == max && StartsWith(s, r[..max - 3]) && r[max - 3..] == "..."
    ensures 0 < |r| <= max
  {
    if |s| == 0 then "-"
    else if |s| <= max then s
    else s[..max - 3] + "..."
  }

  /** Whole seconds shown for a duration: negative input counts as zero,
      fractions are dropped. */
  function WholeSeconds(seconds: real): (n: nat)
    ensures seconds <= 0.0 ==> n == 0
    ensures seconds >= 0.0 ==> n as real <= seconds < n as real + 1.0
  {
    if seconds < 0.0 then 0 else seconds.Floor
  }

  datatype Hms = Hms(h: nat, m: nat, s: nat)

  /** The hours, minutes and seconds of a whole number of seconds. */
  function Split(total: nat): (t: Hms)
    ensures t.m < 60 && t.s < 60
    ensures t.h * 3600 + t.m * 60 + t.s == total
  {
    Hms(total / 3600, (total % 3600) / 60, total % 60)
  }

  /** The decomposition is the only one with minutes and seconds below 60. */
  lemma SplitUnique(total: nat, t: Hms)
    requires t.m < 60 && t.s < 60 && t.h * 3600 + t.m * 60 + t.s == total
    ensures Split(total) == t
  {
    DivBracket(total, t.h, 3600);
    DivBracket(t.m * 60 + t.s, t.m, 60);
    assert total % 3600 == t.m * 60 + t.s;
    assert total % 60 == t.s;
  }

  function DigitChar(d: nat): (c: char)
    requires d < 10
    ensures '0' <= c <= '9' && (c as int) - ('0' as int) == d
  {
    ('0' as int + d) as char
  }

  predicate AllDigits(s: string)
  {
    forall i :: 0 <= i < |s| ==> '0' <= s[i] <= '9'
  }

  /** The decimal digits of `n`, without leading zeros ("0" for zero). */
  function Digits(n: nat): (r: string)
    ensures |r| >= 1 && (n < 10 <==> |r| == 1) && (10 <= n < 100 ==> |r| == 2)
    ensures AllDigits(r)
  {
    if n < 10 then [DigitChar(n)] else Digits(n / 10) + [DigitChar(n % 10)]
  }

  /** The number a string of decimal digits denotes. */
  function DigitsValue(s: string): int
  {
    if s == [] then 0
    else DigitsValue(s[..|s| - 1]) * 10 + ((s[|s| - 1] as int) - ('0' as int))
  }

  lemma {:induction false} DigitsRoundTrip(n: nat)
    ensures DigitsValue(Digits(n)) == n
  {
    var r := Digits(n);
    if n >= 10 {
      DigitsRoundTrip(n / 10);
      assert r[..|r| - 1] == Digits(n / 10);
    }
  }

  lemma {:induction false} LeadingZero(s: string)
    requires AllDigits(s)
    ensures DigitsValue("0" + s) == DigitsValue(s)
    decreases |s|
  {
    if s != [] {
      var z := "0" + s;
      assert z[..|z| - 1] == "0" + s[..|s| - 1];
      LeadingZero(s[..|s| - 1]);
    }
  }

  /** C#'s `D2` format: at least two digits, padded with a zero. */
  function D2(n: nat): (r: string)
    ensures |r| >= 2 && (n < 100 ==> |r| == 2)
    ensures AllDigits(r)
  {
    if n < 10 then "0" + Digits(n) else Digits(n)
  }

  lemma D2RoundTrip(n: nat)
    ensures DigitsValue(D2(n)) == n
  {
    DigitsRoundTrip(n);
    if n < 10 {
      LeadingZero(Digits(n));
    }
  }

  /** The text shown for a split duration: `hh:mm:ss`, or `mm:ss` when
      there are no whole hours. */
  function Display(t: Hms): string
  {
    var mmss := D2(t.m) + ":" + D2(t.s);
    if t.h > 0 then D2(t.h) + ":" + mmss else mmss
  }

  /** `ToHms(seconds)`: the display of the whole seconds elapsed. */
  function ToHms(seconds: real): string
  {
    Display(Split(WholeSeconds(seconds)))
  }

  /** `s` cut at every `c`. */
  function SplitOn(s: string, c: char): (fields: seq<string>)
    ensures |fields| >= 1
    decreases |s|
  {
    var k := IndexOf(s, c);
    if k == |s| then [s] else [s[..k]] + SplitOn(s[k + 1..], c)
  }

  lemma SplitOnNone(s: string, c: char)
    requires forall i :: 0 <= i < |s| ==> s[i] != c
    ensures SplitOn(s, c) == [s]
  {
  }

  lemma SplitOnFirst(a: string, b: string, c: char)
    requires forall i :: 0 <= i < |a| ==> a[i] != c
    ensures SplitOn(a + [c] + b, c) == [a] + SplitOn(b, c)
  {
    var s := a + [c] + b;
    var k := IndexOf(s, c);
    assert s[|a|] == c;
    assert k == |a|;
    assert s[..k] == a && s[k + 1..] == b;
  }

  /** Reading a displayed duration back: two or three colon-separated
      fields of digits, and the number each denotes. */
  function ReadHms(r: string): Option<seq<int>>
  {
    var f := SplitOn(r, ':');
    if (|f| == 2 || |f| == 3) && forall i :: 0 <= i < |f| ==> AllDigits(f[i]) then
      Some(FieldValues(f))
    else None
  }

  /** The number each field denotes. */
  function FieldValues(f: seq<string>): (v: seq<int>)
    ensures |v| == |f| && forall i :: 0 <= i < |f| ==> v[i] == DigitsValue(f[i])
  {
    seq(|f|, i requires 0 <= i < |f| => DigitsValue(f[i]))
  }

  lemma NoColon(s: string)
    requires AllDigits(s)
    ensures forall i :: 0 <= i < |s| ==> s[i] != ':'
  {
  }

  lemma SplitTwo(mm: string, ss: string)
    requires AllDigits(mm) && AllDigits(ss)
    ensures SplitOn(mm + ":" + ss, ':') == [mm, ss]
  {
    NoColon(mm);
    NoColon(ss);
    SplitOnNone(ss, ':');
    SplitOnFirst(mm, ss, ':');
  }

  lemma SplitThree(hh: string, mm: string, ss: string)
    requires AllDigits(hh) && AllDigits(mm) && AllDigits(ss)
    ensures SplitOn(hh + ":" + (mm + ":" + ss), ':') == [hh, mm, ss]
  {
    NoColon(hh);
    SplitTwo(mm, ss);
    SplitOnFirst(hh, mm + ":" + ss, ':');
  }

  /** A text that splits into fields of digits reads as their values. */
  lemma ReadDigitFields(r: string, f: seq<string>)
    requires SplitOn(r, ':') == f && (|f| == 2 || |f| == 3)
    requires forall i :: 0 <= i < |f| ==> AllDigits(f[i])
    ensures ReadHms(r) == Some(FieldValues(f))
  {
  }

  lemma FieldValuesThree(hh: string, mm: string, ss: string)
    ensures FieldValues([hh, mm, ss]) == [DigitsValue(hh), DigitsValue(mm), DigitsValue(ss)]
  {
  }

  lemma FieldValuesTwo(mm: string, ss: string)
    ensures FieldValues([mm, ss]) == [DigitsValue(mm), DigitsValue(ss)]
  {
  }

  /** A text that splits into three fields of digits reads as their values. */
  lemma ReadThreeFields(r: string, hh: string, mm: string, ss: string, h: nat, m: nat, s: nat)
    requires AllDigits(hh) && AllDigits(mm) && AllDigits(ss)
    requires DigitsValue(hh) == h && DigitsValue(mm) == m && DigitsValue(ss) == s
    requires SplitOn(r, ':') == [hh, mm, ss]
    ensures ReadHms(r) == Some([h, m, s])
  {
    ReadDigitFields(r, [hh, mm, ss]);
    FieldValuesThree(hh, mm, ss);
  }

  /** A text that splits into two fields of digits reads as their values. */
  lemma ReadTwoFields(r: string, mm: string, ss: string, m: nat, s: nat)
    requires AllDigits(mm) && AllDigits(ss)
    requires DigitsValue(mm) == m && DigitsValue(ss) == s
    requires SplitOn(r, ':') == [mm, ss]
    ensures ReadHms(r) == Some([m, s])
  {
    ReadDigitFields(r, [mm, ss]);
    FieldValuesTwo(mm, ss);
  }

  /** The display reads back as the hours (when shown), minutes and seconds
      it was made from. */
  lemma DisplayRoundTrip(t: Hms)
    ensures ReadHms(Display(t)) == Some(if t.h > 0 then [t.h, t.m, t.s] else [t.m, t.s])
  {
    D2RoundTrip(t.h);
    D2RoundTrip(t.m);
    D2RoundTrip(t.s);
    if t.h > 0 {
      SplitThree(D2(t.h), D2(t.m), D2(t.s));
      ReadThreeFields(Display(t), D2(t.h), D2(t.m), D2(t.s), t.h, t.m, t.s);
    } else {
      SplitTwo(D2(t.m), D2(t.s));
      ReadTwoFields(Display(t), D2(t.m), D2(t.s), t.m, t.s);
    }
  }

  /** The displayed duration reads back as the hours (when shown), minutes
      and seconds it was made from; by `Split`, these denote exactly the
      whole seconds of the input. */
  lemma ToHmsRoundTrip(seconds: real)
    ensures var t := Split(WholeSeconds(seconds));
      ReadHms(ToHms(seconds)) == Some(if t.h > 0 then [t.h, t.m, t.s] else [t.m, t.s])
  {
    DisplayRoundTrip(Split(WholeSeconds(seconds)));
  }

  /** Below 100 hours the display is `mm:ss` (5 characters) without hours
      and `hh:mm:ss` (8 characters) with them. */
  lemma ToHmsLength(seconds: real)
    ensures Split(WholeSeconds(seconds)).h == 0 ==> |ToHms(seconds)| == 5
    ensures 0 < Split(WholeSeconds(seconds)).h < 100 ==> |ToHms(seconds)| == 8
  {
  }

  // ---------------------------------------------------------------------
  // The soft-reset countdown.

  /** The reset cadence in seconds. */
  function CadenceSeconds(cfg: RunConfig): real
  {
    cfg.resetEveryMinutes * 60.0
  }

  function Mul(k: int, c: real): real
  {
    k as real * c
  }

  /** The countdown line: present only when soft reset is active; then the
      time from `elapsed` up to the next whole multiple of the cadence,
      never below zero. */
  function ResetEta(cfg: RunConfig, elapsed: real): (eta: Option<real>)
    ensures eta.Some? <==> SoftResetActive(cfg)
  {
    if SoftResetActive(cfg) then
      var cadence := CadenceSeconds(cfg);
      var nextK := (elapsed / cadence).Floor + 1;
      var eta := nextK as real * cadence - elapsed;
      Some(if eta < 0.0 then 0.0 else eta)
    else None
  }

  lemma MulMonotoneReal(a: real, b: real, c: real)
    requires c > 0.0
    ensures a <= b ==> a * c <= b * c
    ensures 0.0 < a ==> 0.0 < a * c
  {
  }

  /** The first multiple of `c` after `elapsed` is less than one `c` away. */
  lemma NextMultipleGap(elapsed: real, c: real)
    requires c > 0.0
    ensures var f := (elapsed / c).Floor; 0.0 < Mul(f + 1, c) - elapsed <= c
  {
    var q := elapsed / c;
    var f := q.Floor;
    assert q * c == elapsed;
    var x := (f + 1) as real - q;
    assert Mul(f + 1, c) - elapsed == x * c;
    assert 0.0 < x <= 1.0;
    MulMonotoneReal(x, 1.0, c);
    assert 0.0 < x * c <= 1.0 * c;
  }

  /** No multiple of `c` after `elapsed` comes before that one. */
  lemma NextMultipleFirst(elapsed: real, c: real, k: int)
    requires c > 0.0 && Mul(k, c) > elapsed
    ensures Mul((elapsed / c).Floor + 1, c) <= Mul(k, c)
  {
    var q := elapsed / c;
    var f := q.Floor;
    assert q * c == elapsed;
    MulMonotoneReal(k as real, q, c);
    assert k as real > q;
    assert f as real <= q;
    assert f < k;
    assert (f + 1) as real <= k as real;
    MulMonotoneReal((f + 1) as real, k as real, c);
  }

  /** The countdown is positive and at most one cadence, and it runs to the
      first multiple of the cadence strictly after `elapsed`. */
  lemma EtaNextMultiple(cfg: RunConfig, elapsed: real)
    requires SoftResetActive(cfg)
    ensures var eta := ResetEta(cfg, elapsed).value;
      0.0 < eta <= CadenceSeconds(cfg)
      && (exists k: int :: elapsed + eta == Mul(k, CadenceSeconds(cfg)))
      && forall k: int :: Mul(k, CadenceSeconds(cfg)) > elapsed ==> elapsed + eta <= Mul(k, CadenceSeconds(cfg))
  {
    var c := CadenceSeconds(cfg);
    assert c > 0.0;
    var f := (elapsed / c).Floor;
    NextMultipleGap(elapsed, c);
    assert ResetEta(cfg, elapsed).value == Mul(f + 1, c) - elapsed;
    forall k: int | Mul(k, c) > elapsed
      ensures Mul(f + 1, c) <= Mul(k, c)
    {
      NextMultipleFirst(elapsed, c, k);
    }
  }

  // ---------------------------------------------------------------------
  // Classifying console messages.

  predicate IsNaNMarker(c: string)
  {
    Contains(c, "HANDTRACKING NaN") || Contains(c, "[HAND_NaN]")
  }

  predicate IsKnownPattern(c: string)
  {
    || Contains(c, "FrameSetCollator")
    || Contains(c, "deadlineMissed")
    || Contains(c, "muxModeMisMatch")
    || Contains(c, "releasing incomplete frame set")
    || Contains(c, "onFrameSetAvailable")
  }

  /** A message is flagged when any of the seven substrings occurs in it. */
  predicate IsFlagged(c: string)
  {
    IsNaNMarker(c) || IsKnownPattern(c)
  }

  datatype LogMsg = LogMsg(condition: string, kind: LogType)

  datatype Tally = Tally(warn: nat, error: nat, flag: nat, nan: nat)

  /** What one message adds to the counters. */
  function Classify(msg: LogMsg): (t: Tally)
    ensures t.warn == 1 <==> msg.kind == Warning
    ensures t.error == 1 <==> msg.kind == Error || msg.kind == Exception
    ensures t.nan == 1 <==> IsNaNMarker(msg.condition)
    ensures t.flag == 1 <==> IsFlagged(msg.condition)
    ensures t.warn <= 1 && t.error <= 1 && t.flag <= 1 && t.nan <= 1 && t.warn + t.error <= 1
  {
    Tally(if msg.kind == Warning then 1 else 0,
          if msg.kind == Error || msg.kind == Exception then 1 else 0,
          if IsFlagged(msg.condition) then 1 else 0,
          if IsNaNMarker(msg.condition) then 1 else 0)
  }

  function Add(a: Tally, b: Tally): Tally
  {
    Tally(a.warn + b.warn, a.error + b.error, a.flag + b.flag, a.nan + b.nan)
  }

  /** The counters after a run of messages, oldest first. */
  function TallyOf(msgs: seq<LogMsg>): Tally
  {
    if msgs == [] then Tally(0, 0, 0, 0)
    else Add(TallyOf(msgs[..|msgs| - 1]), Classify(msgs[|msgs| - 1]))
  }

  /** Every NaN message is also a flag, no message counts twice, and a
      message is at most one of warning and error. */
  lemma {:induction false} TallyBounds(msgs: seq<LogMsg>)
    ensures TallyOf(msgs).nan <= TallyOf(msgs).flag <= |msgs|
    ensures TallyOf(msgs).warn + TallyOf(msgs).error <= |msgs|
  {
    if msgs != [] {
      TallyBounds(msgs[..|msgs| - 1]);
    }
  }

  /** The most recent flagged message, if any. */
  function LastFlagged(msgs: seq<LogMsg>): (r: Option<string>)
    ensures r.Some? ==> IsFlagged(r.value)
  {
    if msgs == [] then None
    else if IsFlagged(msgs[|msgs| - 1].condition) then Some(msgs[|msgs| - 1].condition)
    else LastFlagged(msgs[..|msgs| - 1])
  }

  /** No flag has been counted exactly when there is no last flag... */
  lemma {:induction false} NoFlagIffNoLastFlag(msgs: seq<LogMsg>)
    ensures TallyOf(msgs).flag == 0 <==> LastFlagged(msgs) == None
  {
    if msgs != [] {
      NoFlagIffNoLastFlag(msgs[..|msgs| - 1]);
    }
  }

  /** ... which is exactly when no message was flagged. */
  lemma {:induction false} NoLastFlagIffNoneFlagged(msgs: seq<LogMsg>)
    ensures LastFlagged(msgs) == None <==> forall i :: 0 <= i < |msgs| ==> !IsFlagged(msgs[i].condition)
  {
    if msgs != [] {
      NoLastFlagIffNoneFlagged(msgs[..|msgs| - 1]);
    }
  }

  /** Classifying one more message adds its counts and, when it is
      flagged, makes it the last flag. */
  lemma TallySnoc(msgs: seq<LogMsg>, m: LogMsg)
    ensures TallyOf(msgs + [m]) == Add(TallyOf(msgs), Classify(m))
    ensures LastFlagged(msgs + [m]) == if IsFlagged(m.condition) then Some(m.condition) else LastFlagged(msgs)
  {
    assert (msgs + [m])[..|msgs|] == msgs;
  }

  /** A NaN warning counts once as a warning, a flag and a NaN pose. */
  lemma TallySnocNaN(msgs: seq<LogMsg>, c: string)
    requires IsNaNMarker(c)
    ensures var t := TallyOf(msgs);
      TallyOf(msgs + [LogMsg(c, Warning)]) == Tally(t.warn + 1, t.error, t.flag + 1, t.nan + 1)
  {
    TallySnoc(msgs, LogMsg(c, Warning));
  }

  /** Whether the rising-edge detector reports a press for each poll. */
  function Edges(prev: bool, readings: seq<Option<bool>>): seq<bool>
    decreases |readings|
  {
    if readings == [] then []
    else [readings[0] == Some(true) && !prev] + Edges(readings[0] == Some(true), readings[1..])
  }

  /** Holding the button down is one press: only the first poll of a run of
      pressed readings reports it. */
  lemma {:induction false} HeldButtonIsOnePress(prev: bool, n: nat)
    ensures var es := Edges(prev, seq(n, _ => Some(true)));
      |es| == n && forall i :: 0 < i < n ==> !es[i]
    ensures n > 0 ==> Edges(prev, seq(n, _ => Some(true)))[0] == !prev
    decreases n
  {
    var rs: seq<Option<bool>> := seq(n, _ => Some(true));
    if n > 0 {
      assert rs[1..] == seq(n - 1, _ => Some(true));
      HeldButtonIsOnePress(true, n - 1);
    }
  }

  /** The HUD's counters `tally` and last-flag fields account for the
      messages `msgs`: the counters are their tally, and the last-flag message
      is the trimmed text of the most recent flagged one ("-" and -1 before any). */
  ghost predicate Accounts(msgs: seq<LogMsg>, tally: Tally, lastMsg: string, lastAt: real)
  {
    && tally == TallyOf(msgs)
    && match LastFlagged(msgs)
       case None => lastMsg == "-" && lastAt == -1.0
       case Some(c) => lastMsg == Trim(c, FlagMessageMax) && lastAt >= 0.0
  }

  /** Counting one more message the way the HUD does keeps the accounts:
      its classification is added to the counters and, when it is flagged,
      it becomes the last flag; otherwise the last flag stays. */
  lemma AccountsSnoc(msgs: seq<LogMsg>, tally: Tally, lastMsg: string, lastAt: real,
                     m: LogMsg, tally': Tally, lastMsg': string, lastAt': real)
    requires Accounts(msgs, tally, lastMsg, lastAt)
    requires tally' == Add(tally, Classify(m))
    requires IsFlagged(m.condition) ==> lastMsg' == Trim(m.condition, FlagMessageMax) && lastAt' >= 0.0
    requires !IsFlagged(m.condition) ==> lastMsg' == lastMsg && lastAt' == lastAt
    ensures Accounts(msgs + [m], tally', lastMsg', lastAt')
  {
    TallySnoc(msgs, m);
  }

  // ---------------------------------------------------------------------
  // The HUD.

  /** What one refresh shows, field by field. */
  datatype Snapshot = Snapshot(
    scenario: string,
    elapsed: string,
    target: string,
    nextReset: Option<string>,
    warnings: nat,
    errors: nat,
    flags: nat,
    nanPoses: nat,
    lastFlag: string,
    lastFlagAt: Option<string>)

  function ScenarioName(s: Scenario): string
  {
    match s
    case HandOnly => "HandOnly"
    case HandPlusDepth => "HandPlusDepth"
    case HandPlusRGB => "HandPlusRGB"
    case HandPlusRGBAndDepth => "HandPlusRGBAndDepth"
  }

  const FlagMessageMax: int := 140
  const DefaultRefreshInterval: real := 0.25

  class TestHUD {
    /** The runner found in the scene, by its settings, or none. */
    const runner: Option<RunConfig>
    /** Whether a text element to render into exists. */
    const hasOutput: bool
    const refreshInterval: real

    var warnCount: nat
    var errorCount: nat
    var flagCount: nat
    var nanCount: nat
    var lastFlagMsg: string
    var lastFlagAt: real
    var sessionStart: real
    var nextRefresh: real
    var prevSecondaryPressed: bool
    var visible: bool
    /** Subscribed to the console's message event. */
    var subscribed: bool
    /** Every message the HUD has classified, oldest first. */
    ghost var seen: seq<LogMsg>

    /** The counters are the tally of the messages seen, and the last-flag
        message is the trimmed text of the most recent flagged one. */
    ghost predicate Valid()
      reads this
    {
      Accounts(seen, Tally(warnCount, errorCount, flagCount, nanCount), lastFlagMsg, lastFlagAt)
    }

    /** `Awake`: start visible or hidden as configured. */
    constructor (runner: Option<RunConfig>, hasOutput: bool, startVisible: bool, refreshInterval: real)
      ensures Valid() && seen == [] && !subscribed
      ensures this.runner == runner && this.hasOutput == hasOutput && this.refreshInterval == refreshInterval
      ensures visible == startVisible && !prevSecondaryPressed && nextRefresh == 0.0
    {
      this.runner := runner;
      this.hasOutput := hasOutput;
      this.refreshInterval := refreshInterval;
      warnCount, errorCount, flagCount, nanCount := 0, 0, 0, 0;
      lastFlagMsg := "-";
      lastFlagAt := -1.0;
      sessionStart := 0.0;
      nextRefresh := 0.0;
      prevSecondaryPressed := false;
      visible := startVisible;
      subscribed := false;
      seen := [];
    }

    /** `OnEnable`: subscribe and start the session clock. */
    method OnEnable(now: real)
      modifies this`subscribed, this`sessionStart
      ensures subscribed && sessionStart == now
    {
      subscribed := true;
      sessionStart := now;
    }

    /** `OnDisable`: unsubscribe. */
    method OnDisable()
      modifies this`subscribed
      ensures !subscribed
    {
      subscribed := false;
    }

    /** `OnLog`: count the message by severity, then by pattern; a flagged
        message also becomes the last flag, with its time in the session.
        `now` is the realtime clock, which never runs back behind the
        session start. */
    method OnLog(condition: string, kind: LogType, now: real)
      requires Valid() && now >= sessionStart
      modifies this`warnCount, this`errorCount, this`flagCount, this`nanCount,
               this`lastFlagMsg, this`lastFlagAt, this`seen
      ensures Valid() && seen == old(seen) + [LogMsg(condition, kind)]
      ensures warnCount == old(warnCount) + (if kind == Warning then 1 else 0)
      ensures errorCount == old(errorCount) + (if kind == Error || kind == Exception then 1 else 0)
      ensures nanCount == old(nanCount) + (if IsNaNMarker(condition) then 1 else 0)
      ensures flagCount == old(flagCount) + (if IsFlagged(condition) then 1 else 0)
      ensures IsFlagged(condition) ==> lastFlagMsg == Trim(condition, FlagMessageMax)
                                       && lastFlagAt == now - sessionStart
      ensures !IsFlagged(condition) ==> lastFlagMsg == old(lastFlagMsg) && lastFlagAt == old(lastFlagAt)
    {
      ghost var tally, lastMsg, lastAt := Tally(warnCount, errorCount, flagCount, nanCount), lastFlagMsg, lastFlagAt;
      CountSeverity(kind);
      CountPatterns(condition, now);
      var msg := LogMsg(condition, kind);
      AccountsSnoc(seen, tally, lastMsg, lastAt, msg,
                   Tally(warnCount, errorCount, flagCount, nanCount), lastFlagMsg, lastFlagAt);
      seen := seen + [msg];
    }

    /** The severity half of `OnLog`. */
    method CountSeverity(kind: LogType)
      modifies this`warnCount, this`errorCount
      ensures warnCount == old(warnCount) + (if kind == Warning then 1 else 0)
      ensures errorCount == old(errorCount) + (if kind == Error || kind == Exception then 1 else 0)
    {
      if kind == Warning {
        warnCount := warnCount + 1;
      } else if kind == Error || kind == Exception {
        errorCount := errorCount + 1;
      }
    }

    /** The pattern half of `OnLog`. */
    method CountPatterns(condition: string, now: real)
      modifies this`nanCount, this`flagCount, this`lastFlagMsg, this`lastFlagAt
      ensures nanCount == old(nanCount) + (if IsNaNMarker(condition) then 1 else 0)
      ensures flagCount == old(flagCount) + (if IsFlagged(condition) then 1 else 0)
      ensures IsFlagged(condition) ==> lastFlagMsg == Trim(condition, FlagMessageMax)
                                       && lastFlagAt == now - sessionStart
      ensures !IsFlagged(condition) ==> lastFlagMsg == old(lastFlagMsg) && lastFlagAt == old(lastFlagAt)
    {
      var flagged := false;
      if IsNaNMarker(condition) {
        nanCount := nanCount + 1;
        flagged := true;
      }
      if IsKnownPattern(condition) {
        flagged := true;
      }
      if flagged {
        flagCount := flagCount + 1;
        lastFlagMsg := Trim(condition, FlagMessageMax);
        lastFlagAt := now - sessionStart;
      }
    }

    /** The console delivering a message: only a subscribed HUD sees it. */
    method Receive(condition: string, kind: LogType, now: real)
      requires Valid() && now >= sessionStart
      modifies this`warnCount, this`errorCount, this`flagCount, this`nanCount,
               this`lastFlagMsg, this`lastFlagAt, this`seen
      ensures Valid()
      ensures seen == if subscribed then old(seen) + [LogMsg(condition, kind)] else old(seen)
      ensures !subscribed ==> unchanged(this)
    {
      if subscribed {
        OnLog(condition, kind, now);
      }
    }

    /** `GetRightBPressedThisFrame`: `reading` is the B button's state, or
        none when the device is invalid or does not report it. A press is
        reported only on the poll where the button goes down. */
    method PollSecondaryButton(reading: Option<bool>) returns (edge: bool)
      modifies this`prevSecondaryPressed
      ensures edge == (reading == Some(true) && !old(prevSecondaryPressed))
      ensures prevSecondaryPressed == (reading == Some(true))
      ensures [edge] == Edges(old(prevSecondaryPressed), [reading])
    {
      if reading.Some? {
        var pressed := reading.value;
        edge := pressed && !prevSecondaryPressed;
        prevSecondaryPressed := pressed;
        return;
      }
      prevSecondaryPressed := false;
      edge := false;
    }

    /** The status the HUD composes at time `now`. The last-flag time is
        shown exactly when some flagged message has been seen. */
    function Compose(now: real): (s: Snapshot)
      requires Valid()
      reads this
      ensures s.nextReset.Some? <==> runner.Some? && SoftResetActive(runner.value)
      ensures s.lastFlagAt.Some? <==> lastFlagAt >= 0.0
      ensures s.lastFlagAt.Some? <==> LastFlagged(seen).Some?
    {
      var elapsed := now - sessionStart;
      var runTarget := if runner.Some? then runner.value.runMinutes * 60.0 else 0.0;
      Snapshot(
        if runner.Some? then ScenarioName(runner.value.scenario) else "(no runner)",
        ToHms(elapsed),
        if runTarget > 0.0 then ToHms(runTarget) else "n/a",
        if runner.Some? && SoftResetActive(runner.value)
        then Some(ToHms(ResetEta(runner.value, elapsed).value)) else None,
        warnCount, errorCount, flagCount, nanCount,
        if lastFlagMsg == "" then "-" else lastFlagMsg,
        if lastFlagAt >= 0.0 then Some(ToHms(lastFlagAt)) else None)
    }

    /** `Update`: toggle visibility on a B press; then, unless the refresh
        is throttled, schedule the next one and compose the status when
        there is somewhere visible to show it. */
    method Update(now: real, reading: Option<bool>) returns (shown: Option<Snapshot>)
      requires Valid()
      modifies this`prevSecondaryPressed, this`visible, this`nextRefresh
      ensures Valid()
      ensures prevSecondaryPressed == (reading == Some(true))
      ensures visible == (old(visible) != (reading == Some(true) && !old(prevSecondaryPressed)))
      ensures now < old(nextRefresh) ==> nextRefresh == old(nextRefresh) && shown == None
      ensures now >= old(nextRefresh) ==> nextRefresh == now + refreshInterval
      ensures shown.Some? <==> now >= old(nextRefresh) && hasOutput && visible
      ensures shown.Some? ==> shown.value == Compose(now)
    {
      var edge := PollSecondaryButton(reading);
      if edge {
        visible := !visible;
      }
      if now < nextRefresh {
        return None;
      }
      nextRefresh := now + refreshInterval;
      if !hasOutput || !visible {
        return None;
      }
      shown := Some(Compose(now));
    }
  }
}
