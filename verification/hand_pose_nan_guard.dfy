/** The pose guard (`HandPoseNaNGuard`): every frame, while the hand
    subsystem runs, it looks at six joints of each tracked hand, left hand
    first, and reports every joint whose position has a NaN coordinate,
    both as a console warning and as a line of the durable log. */
module NaNGuard {
  import opened Common
  import opened LogSink
  import Hud
  import Hook

  /** One coordinate of a position as the device reports it. Only NaN is
      looked for; infinities pass as ordinary values. */
  datatype Coord = Num(value: real) | NaN | PosInf | NegInf

  datatype Vec3 = Vec3(x: Coord, y: Coord, z: Coord)

  predicate HasNaN(p: Vec3)
  {
    p.x.NaN? || p.y.NaN? || p.z.NaN?
  }

  /** The joints of a hand: the six the guard looks at, the palm, and the
      remaining finger joints by number. */
  datatype JointId = Wrist | IndexTip | MiddleTip | RingTip | LittleTip | ThumbTip | Palm | Other(n: nat)

  /** The joints checked, in the order they are checked. */
  const CheckJoints: seq<JointId> := [Wrist, IndexTip, MiddleTip, RingTip, LittleTip, ThumbTip]

  /** The position of a joint in the checking order; 6 for the others. */
  function Rank(j: JointId): nat
  {
    match j
    case Wrist => 0
    case IndexTip => 1
    case MiddleTip => 2
    case RingTip => 3
    case LittleTip => 4
    case ThumbTip => 5
    case _ => 6
  }

  function JointName(j: JointId): string
  {
    match j
    case Wrist => "Wrist"
    case IndexTip => "IndexTip"
    case MiddleTip => "MiddleTip"
    case RingTip => "RingTip"
    case LittleTip => "LittleTip"
    case ThumbTip => "ThumbTip"
    case Palm => "Palm"
    case Other(_) => "Joint"
  }

  /** One hand as seen this frame: whether it is tracked, and the poses that
      can be resolved (a joint missing from the map has no pose). */
  datatype Hand = Hand(tracked: bool, poses: map<JointId, Vec3>)

  /** The hand subsystem's state this frame. */
  datatype HandsState = HandsState(running: bool, left: Hand, right: Hand)

  /** The report for one joint. `show` is the device's text for a coordinate. */
  function Report(side: string, j: JointId, p: Vec3, show: Coord -> string): (r: string)
    ensures StartsWith(r, "[HAND_NaN] " + side + " " + JointName(j))
    ensures StartsWith(r, "[HAND_NaN]")
  {
    var head := "[HAND_NaN] " + side + " " + JointName(j);
    var tail := " pos=(" + show(p.x) + "," + show(p.y) + "," + show(p.z) + ")";
    StartsWithAppend(head, tail);
    StartsWithAppend("[HAND_NaN] " + side + " ", JointName(j));
    StartsWithAppend("[HAND_NaN] " + side, " ");
    StartsWithAppend("[HAND_NaN] ", side);
    assert StartsWith("[HAND_NaN] ", "[HAND_NaN]");
    StartsWithTrans("[HAND_NaN] " + side, "[HAND_NaN] ", "[HAND_NaN]");
    StartsWithTrans("[HAND_NaN] " + side + " ", "[HAND_NaN] " + side, "[HAND_NaN]");
    StartsWithTrans(head, "[HAND_NaN] " + side + " ", "[HAND_NaN]");
    StartsWithTrans(head + tail, head, "[HAND_NaN]");
    head + tail
  }

  /** The joints of `js`, in order, whose pose resolves and has a NaN. */
  function NaNJoints(h: Hand, js: seq<JointId>): (r: seq<JointId>)
    ensures |r| <= |js|
    ensures forall i :: 0 <= i < |r| ==> r[i] in h.poses && HasNaN(h.poses[r[i]])
  {
    if js == [] then []
    else
      var j := js[|js| - 1];
      NaNJoints(h, js[..|js| - 1]) + (if j in h.poses && HasNaN(h.poses[j]) then [j] else [])
  }

  /** The reports for the joints of `js`, one per NaN joint, in order. */
  function Reports(h: Hand, side: string, show: Coord -> string, js: seq<JointId>): (r: seq<string>)
    ensures |r| == |NaNJoints(h, js)|
  {
    var nj := NaNJoints(h, js);
    seq(|nj|, i requires 0 <= i < |nj| => Report(side, nj[i], h.poses[nj[i]], show))
  }

  /** The reports for one hand: none when it is untracked. */
  function HandReports(h: Hand, side: string, show: Coord -> string): seq<string>
  {
    if h.tracked then Reports(h, side, show, CheckJoints) else []
  }

  /** The reports of one frame: none without a running subsystem, else the
      left hand's followed by the right hand's. */
  function FrameReports(present: bool, st: HandsState, show: Coord -> string): seq<string>
  {
    if !present || !st.running then []
    else HandReports(st.left, "Left", show) + HandReports(st.right, "Right", show)
  }

  /** A joint is reported exactly when it is one of those looked at, its
      pose resolves and a coordinate is NaN. */
  lemma {:induction false} NaNJointsIff(h: Hand, js: seq<JointId>, j: JointId)
    ensures j in NaNJoints(h, js) <==> j in js && j in h.poses && HasNaN(h.poses[j])
  {
    if js != [] {
      NaNJointsIff(h, js[..|js| - 1], j);
      assert js == js[..|js| - 1] + [js[|js| - 1]];
    }
  }

  /** Joints are reported in the order they are looked at, so none twice. */
  lemma {:induction false} NaNJointsOrdered(h: Hand, js: seq<JointId>)
    requires forall a, b :: 0 <= a < b < |js| ==> Rank(js[a]) < Rank(js[b])
    ensures var r := NaNJoints(h, js); forall a, b :: 0 <= a < b < |r| ==> Rank(r[a]) < Rank(r[b])
  {
    if js != [] {
      var front := js[..|js| - 1];
      var last := js[|js| - 1];
      NaNJointsOrdered(h, front);
      var r0 := NaNJoints(h, front);
      forall a | 0 <= a < |r0|
        ensures Rank(r0[a]) < Rank(last)
      {
        NaNJointsIff(h, front, r0[a]);
        var k :| 0 <= k < |front| && front[k] == r0[a];
      }
    }
  }

  /** Adding one joint to the list adds its report when it is a NaN joint. */
  lemma ReportsSnoc(h: Hand, side: string, show: Coord -> string, js: seq<JointId>, j: JointId)
    ensures Reports(h, side, show, js + [j])
            == Reports(h, side, show, js)
               + (if j in h.poses && HasNaN(h.poses[j]) then [Report(side, j, h.poses[j], show)] else [])
  {
    assert (js + [j])[..|js|] == js;
  }

  /** Of the six joints looked at, exactly those whose pose resolves with a
      NaN coordinate are reported; infinities are not NaN and the other
      joints of the hand are never looked at. */
  lemma CheckedJointsIff(h: Hand)
    ensures forall j :: j in NaNJoints(h, CheckJoints) <==> j in CheckJoints && j in h.poses && HasNaN(h.poses[j])
  {
    forall j {
      NaNJointsIff(h, CheckJoints, j);
    }
  }

  /** The reported joints come in the checking order, each once. */
  lemma CheckedJointsOrdered(h: Hand)
    ensures var r := NaNJoints(h, CheckJoints); forall a, b :: 0 <= a < b < |r| ==> Rank(r[a]) < Rank(r[b])
  {
    NaNJointsOrdered(h, CheckJoints);
  }

  /** A tracked hand has one report per NaN joint, in order, so at most six;
      an untracked hand has none. */
  lemma HandReportsSpec(h: Hand, side: string, show: Coord -> string)
    ensures |HandReports(h, side, show)| <= 6
    ensures !h.tracked ==> HandReports(h, side, show) == []
    ensures h.tracked ==> forall i :: 0 <= i < |NaNJoints(h, CheckJoints)| ==>
              var j := NaNJoints(h, CheckJoints)[i];
              HandReports(h, side, show)[i] == Report(side, j, h.poses[j], show)
  {
  }

  /** Every report of a hand starts with the `[HAND_NaN]` marker. */
  lemma HandReportsMarked(h: Hand, side: string, show: Coord -> string)
    ensures forall r :: r in HandReports(h, side, show) ==> StartsWith(r, "[HAND_NaN]")
  {
    var rs := HandReports(h, side, show);
    forall i | 0 <= i < |rs|
      ensures StartsWith(rs[i], "[HAND_NaN]")
    {
      var nj := NaNJoints(h, CheckJoints);
      var j := nj[i];
      assert rs[i] == Report(side, j, h.poses[j], show);
    }
  }

  /** At most twelve reports a frame, every one a NaN marker for the HUD. */
  lemma FrameReportsSpec(present: bool, st: HandsState, show: Coord -> string)
    ensures |FrameReports(present, st, show)| <= 12
    ensures forall r :: r in FrameReports(present, st, show) ==> Hud.IsNaNMarker(r)
  {
    HandReportsSpec(st.left, "Left", show);
    HandReportsSpec(st.right, "Right", show);
    HandReportsMarked(st.left, "Left", show);
    HandReportsMarked(st.right, "Right", show);
  }

  function AsWarnings(ws: seq<string>): (ms: seq<Hud.LogMsg>)
    ensures |ms| == |ws|
    ensures forall i :: 0 <= i < |ws| ==> ms[i] == Hud.LogMsg(ws[i], Warning)
  {
    seq(|ws|, i requires 0 <= i < |ws| => Hud.LogMsg(ws[i], Warning))
  }

  /** The HUD counts each of a batch of NaN warnings once as a warning, once
      as a flag and once as a NaN pose, and nothing as an error. */
  lemma {:induction false} HudCountsWarnings(msgs: seq<Hud.LogMsg>, ws: seq<string>)
    requires forall i :: 0 <= i < |ws| ==> Hud.IsNaNMarker(ws[i])
    ensures var before := Hud.TallyOf(msgs);
      Hud.TallyOf(msgs + AsWarnings(ws))
      == Hud.Tally(before.warn + |ws|, before.error, before.flag + |ws|, before.nan + |ws|)
    decreases |ws|
  {
    if ws != [] {
      var front := ws[..|ws| - 1];
      var w := ws[|ws| - 1];
      HudCountsWarnings(msgs, front);
      var x := msgs + AsWarnings(front);
      assert msgs + AsWarnings(ws) == x + [Hud.LogMsg(w, Warning)];
      Hud.TallySnocNaN(x, w);
    } else {
      assert msgs + AsWarnings(ws) == msgs;
    }
  }

  /** A character the device's number text can contain: digits, signs,
      separators, the exponent `E`, and the letters of `NaN`, `Infinity`
      and `∞`. */
  predicate NumberChar(ch: char)
  {
    || '0' <= ch <= '9'
    || ch == '+' || ch == '-' || ch == '.' || ch == ',' || ch == 'E'
    || ch == 'N' || ch == 'a' || ch == 'I' || ch == 'n' || ch == 'f' || ch == 'i' || ch == 't' || ch == 'y'
    || ch == '\U{221E}'
  }

  predicate NumberText(t: string)
  {
    forall i :: 0 <= i < |t| ==> NumberChar(t[i])
  }

  lemma NumberTextLacks(t: string)
    requires NumberText(t)
    ensures 'F' !in t && 'c' !in t && 'K' !in t && 'e' !in t
  {
  }

  /** The letters the hook's patterns need and a joint name lacks. */
  lemma JointNameLetters(j: JointId)
    ensures var name := JointName(j); 'F' !in name && 'c' !in name && 'K' !in name
  {
  }

  /** No joint name has an `e` followed by an `a`, nor starts with `a`. */
  lemma JointNamePair(j: JointId)
    ensures var name := JointName(j); NoPair(name, 'e', 'a') && |name| > 0 && name[0] != 'a'
  {
    var name := JointName(j);
    if j.Palm? {
      assert name == "Palm";
    } else {
      assert 'a' !in name;
    }
  }

  /** The coordinate part of a report has none of those letters, nor `e`. */
  lemma TailChars(xs: string, ys: string, zs: string)
    requires NumberText(xs) && NumberText(ys) && NumberText(zs)
    ensures var tail := " pos=(" + xs + "," + ys + "," + zs + ")";
      && 'F' !in tail && 'c' !in tail && 'K' !in tail && 'e' !in tail
      && tail[0] == ' '
  {
    NumberTextLacks(xs);
    NumberTextLacks(ys);
    NumberTextLacks(zs);
  }

  /** A text without `F`, `c` or `K`, in which no `e` is followed by `a`,
      holds none of the hook's four patterns: each pattern needs one of
      those letters, or that pair. */
  lemma EscapesHook(r: string)
    requires 'F' !in r && 'c' !in r && 'K' !in r && NoPair(r, 'e', 'a')
    ensures !Hook.IsHookFlagged(r)
  {
    MissingCharNotContained(r, "FrameSetCollator", 0);
    MissingPairNotContained(r, "deadlineMissed", 1);
    MissingCharNotContained(r, "muxModeMisMatch", 13);
    MissingCharNotContained(r, "HANDTRACKING NaN", 8);
  }

  /** A report assembled from its parts lacks those letters and that pair
      when its joint name and its coordinate part do. */
  lemma ReportLetters(side: string, name: string, tail: string)
    requires side == "Left" || side == "Right"
    requires 'F' !in name && 'c' !in name && 'K' !in name
    requires NoPair(name, 'e', 'a') && |name| > 0 && name[0] != 'a'
    requires 'F' !in tail && 'c' !in tail && 'K' !in tail && 'e' !in tail && |tail| > 0 && tail[0] != 'a'
    ensures var r := "[HAND_NaN] " + side + " " + name + tail;
      'F' !in r && 'c' !in r && 'K' !in r && NoPair(r, 'e', 'a')
  {
    var a := "[HAND_NaN] " + side + " ";
    assert 'F' !in a && 'c' !in a && 'K' !in a;
    assert NoPair(a, 'e', 'a');
    assert NoPair(tail, 'e', 'a');
    NoPairAppend(name, tail, 'e', 'a');
    assert a + (name + tail) == "[HAND_NaN] " + side + " " + name + tail;
    NoPairAppend(a, name + tail, 'e', 'a');
  }

  /** A report is a NaN flag for the HUD, yet none of the hook's four
      patterns occurs in it, so a subscribed hook writes its warning line
      and no `[FLAG]` line. */
  lemma ReportNotHookFlagged(side: string, j: JointId, p: Vec3, show: Coord -> string)
    requires side == "Left" || side == "Right"
    requires NumberText(show(p.x)) && NumberText(show(p.y)) && NumberText(show(p.z))
    ensures var r := Report(side, j, p, show);
      && Hud.IsNaNMarker(r) && Hud.IsFlagged(r)
      && !Hook.IsHookFlagged(r)
      && Hook.HookLines(r, Warning) == [Hook.SeverityLine(r, Warning)]
  {
    var r := Report(side, j, p, show);
    var tail := " pos=(" + show(p.x) + "," + show(p.y) + "," + show(p.z) + ")";
    JointNameLetters(j);
    JointNamePair(j);
    TailChars(show(p.x), show(p.y), show(p.z));
    ReportLetters(side, JointName(j), tail);
    assert r == "[HAND_NaN] " + side + " " + JointName(j) + tail;
    EscapesHook(r);
    ContainsIffOccurs(r, "[HAND_NaN]");
    assert OccursAt(r, "[HAND_NaN]", 0);
  }

  /** The lines one warning puts in the log: the console delivers it first,
      synchronously, to a subscribed hook, which writes its own lines; then
      the guard writes the warning itself. */
  function EchoOne(w: string, hooked: bool): (lines: seq<string>)
    ensures lines != [] && lines[|lines| - 1] == w
    ensures !hooked ==> lines == [w]
  {
    (if hooked then Hook.HookLines(w, Warning) else []) + [w]
  }

  /** The lines a batch of warnings puts in the log, warning by warning. */
  function Echoed(ws: seq<string>, hooked: bool): (lines: seq<string>)
    ensures lines == [] <==> ws == []
    ensures |lines| >= |ws|
  {
    if ws == [] then [] else Echoed(ws[..|ws| - 1], hooked) + EchoOne(ws[|ws| - 1], hooked)
  }

  lemma EchoedSingle(w: string, hooked: bool)
    ensures Echoed([w], hooked) == EchoOne(w, hooked)
  {
    assert [w][..0] == [];
  }

  lemma EchoedSnoc(ws: seq<string>, w: string, hooked: bool)
    ensures Echoed(ws + [w], hooked) == Echoed(ws, hooked) + EchoOne(w, hooked)
  {
    assert (ws + [w])[..|ws|] == ws;
  }

  lemma EchoedAppendStep(a: seq<string>, front: seq<string>, last: string, hooked: bool)
    requires Echoed(a + front, hooked) == Echoed(a, hooked) + Echoed(front, hooked)
    ensures Echoed((a + front) + [last], hooked) == Echoed(a, hooked) + Echoed(front + [last], hooked)
  {
    EchoedSnoc(a + front, last, hooked);
    EchoedSnoc(front, last, hooked);
    AppendAssoc(Echoed(a, hooked), Echoed(front, hooked), EchoOne(last, hooked));
  }

  /** Two batches in a row put the lines of their concatenation in the log. */
  lemma {:induction false} EchoedAppend(a: seq<string>, b: seq<string>, hooked: bool)
    ensures Echoed(a + b, hooked) == Echoed(a, hooked) + Echoed(b, hooked)
    decreases |b|
  {
    if b == [] {
      assert a + b == a;
    } else {
      var front, last := b[..|b| - 1], b[|b| - 1];
      AppendSnocSplit(a, b);
      EchoedAppend(a, front, hooked);
      EchoedAppendStep(a, front, last, hooked);
    }
  }

  /** The log after two batches of warnings in a row. */
  lemma EchoedFileAppend(inited: bool, file: seq<string>, host: Host, a: seq<string>, b: seq<string>, hooked: bool)
    ensures FileAfter(inited || a != [], FileAfter(inited, file, host, Echoed(a, hooked)), host, Echoed(b, hooked))
            == FileAfter(inited, file, host, Echoed(a + b, hooked))
  {
    FileAfterAppend(inited, file, host, Echoed(a, hooked), Echoed(b, hooked));
    EchoedAppend(a, b, hooked);
  }

  /** Without a subscribed hook the log gets exactly the warnings. */
  lemma {:induction false} EchoedUnhooked(ws: seq<string>)
    ensures Echoed(ws, false) == ws
  {
    if ws != [] {
      EchoedUnhooked(ws[..|ws| - 1]);
      assert ws == ws[..|ws| - 1] + [ws[|ws| - 1]];
    }
  }

  /** With a subscribed hook and warnings it does not flag, the log gets
      each warning twice in a row: first the hook's `[Warning]` copy, then
      the guard's own line. */
  lemma {:induction false} EchoedInterleaved(ws: seq<string>)
    requires forall i :: 0 <= i < |ws| ==> !Hook.IsHookFlagged(ws[i])
    ensures |Echoed(ws, true)| == 2 * |ws|
    ensures forall i :: 0 <= i < |ws| ==>
              Echoed(ws, true)[2 * i] == Hook.SeverityLine(ws[i], Warning)
              && Echoed(ws, true)[2 * i + 1] == ws[i]
  {
    if ws != [] {
      var front, last := ws[..|ws| - 1], ws[|ws| - 1];
      EchoedInterleaved(front);
      assert Hook.HookLines(last, Warning) == [Hook.SeverityLine(last, Warning)];
      assert EchoOne(last, true) == [Hook.SeverityLine(last, Warning), last];
    }
  }

  /** Every report of a frame escapes the hook's patterns, whatever the
      joints and poses, as long as coordinates print as number text. */
  lemma FrameReportsNotHookFlagged(present: bool, st: HandsState, show: Coord -> string)
    requires forall c :: NumberText(show(c))
    ensures forall r :: r in FrameReports(present, st, show) ==> !Hook.IsHookFlagged(r)
  {
    forall side, h | (side == "Left" && h == st.left) || (side == "Right" && h == st.right)
      ensures forall r :: r in HandReports(h, side, show) ==> !Hook.IsHookFlagged(r)
    {
      var rs := HandReports(h, side, show);
      forall i | 0 <= i < |rs|
        ensures !Hook.IsHookFlagged(rs[i])
      {
        var j := NaNJoints(h, CheckJoints)[i];
        ReportNotHookFlagged(side, j, h.poses[j], show);
      }
    }
  }

  const NotFoundLine: string := "[NaNGuard] XRHandSubsystem not found."

  class HandPoseNaNGuard {
    /** The process-wide sink. */
    const sink: LogFile
    /** A hand subsystem was found when the guard was enabled. */
    var present: bool

    constructor (sink: LogFile)
      ensures this.sink == sink && !present
    {
      this.sink := sink;
      present := false;
    }

    /** `OnEnable`: remember whether a subsystem was found; warn when not.
        The warning goes to the console only, so it reaches the log just
        through a subscribed `hook`. */
    method OnEnable(found: bool, hook: Hook.FrameLogHook?, host: Host) returns (warnings: seq<string>)
      requires sink.Valid()
      requires hook != null ==> hook.sink == sink
      modifies this`present, sink
      ensures present == found
      ensures warnings == if found then [] else [NotFoundLine]
      ensures sink.Valid()
      ensures sink.file == if !found && hook != null && hook.subscribed
                           then FileAfter(old(sink.inited), old(sink.file), host, Hook.HookLines(NotFoundLine, Warning))
                           else old(sink.file)
    {
      present := found;
      warnings := [];
      if !found {
        warnings := [NotFoundLine];
        if hook != null {
          hook.Receive(NotFoundLine, Warning, host);
        }
      }
    }

    /** One report: `Debug.LogWarning`, which delivers the message to a
        subscribed `hook` before returning, then `LogFile.WriteLine`. */
    method Warn(msg: string, hook: Hook.FrameLogHook?, host: Host)
      requires sink.Valid()
      requires hook != null ==> hook.sink == sink
      modifies sink
      ensures sink.Valid() && sink.inited
      ensures sink.file == FileAfter(old(sink.inited), old(sink.file), host,
                                     Echoed([msg], hook != null && hook.subscribed))
    {
      ghost var hooked := hook != null && hook.subscribed;
      ghost var i0, f0 := sink.inited, sink.file;
      ghost var l := if hooked then Hook.HookLines(msg, Warning) else [];
      if hook != null {
        hook.Receive(msg, Warning, host);
      }
      assert sink.file == FileAfter(i0, f0, host, l);
      FileAfterOne(sink.inited, sink.file, host, msg);
      FileAfterAppend(i0, f0, host, l, [msg]);
      sink.WriteLine(msg, host);
      EchoedSingle(msg, hooked);
    }

    /** One pass of `CheckHand`'s loop: a joint whose pose resolves with a
        NaN coordinate is reported; any other joint is passed over. */
    method CheckJoint(hand: Hand, side: string, show: Coord -> string, id: JointId, hook: Hook.FrameLogHook?, host: Host)
      returns (found: seq<string>)
      requires sink.Valid()
      requires hook != null ==> hook.sink == sink
      modifies sink
      ensures found == if id in hand.poses && HasNaN(hand.poses[id]) then [Report(side, id, hand.poses[id], show)] else []
      ensures sink.Valid() && sink.inited == (old(sink.inited) || found != [])
      ensures sink.file == FileAfter(old(sink.inited), old(sink.file), host,
                                     Echoed(found, hook != null && hook.subscribed))
    {
      found := [];
      if id !in hand.poses {
        return;
      }
      var p := hand.poses[id];
      if p.x.NaN? || p.y.NaN? || p.z.NaN? {
        var msg := Report(side, id, p, show);
        Warn(msg, hook, host);
        found := [msg];
      }
    }

    /** `CheckHand`: report the NaN joints of one hand. Each report goes to
        the console first, where a subscribed `hook` writes its own lines,
        and then to the log. */
    method CheckHand(hand: Hand, side: string, show: Coord -> string, hook: Hook.FrameLogHook?, host: Host)
      returns (warnings: seq<string>)
      requires sink.Valid()
      requires hook != null ==> hook.sink == sink
      modifies sink
      ensures warnings == HandReports(hand, side, show)
      ensures sink.Valid() && sink.inited == (old(sink.inited) || warnings != [])
      ensures sink.file == FileAfter(old(sink.inited), old(sink.file), host,
                                     Echoed(warnings, hook != null && hook.subscribed))
    {
      warnings := [];
      if !hand.tracked {
        return;
      }
      ghost var hooked := hook != null && hook.subscribed;
      ghost var i0, f0 := sink.inited, sink.file;
      for i := 0 to |CheckJoints|
        invariant sink.Valid() && sink.inited == (i0 || warnings != [])
        invariant warnings == Reports(hand, side, show, CheckJoints[..i])
        invariant sink.file == FileAfter(i0, f0, host, Echoed(warnings, hooked))
        invariant hooked == (hook != null && hook.subscribed)
      {
        var id := CheckJoints[i];
        TakeSnoc(CheckJoints, i);
        ReportsSnoc(hand, side, show, CheckJoints[..i], id);
        var found := CheckJoint(hand, side, show, id, hook, host);
        EchoedFileAppend(i0, f0, host, warnings, found, hooked);
        warnings := warnings + found;
      }
      TakeAll(CheckJoints);
    }

    /** `Update`: nothing without a running subsystem; otherwise the left
        hand, then the right. */
    method Update(st: HandsState, show: Coord -> string, hook: Hook.FrameLogHook?, host: Host)
      returns (warnings: seq<string>)
      requires sink.Valid()
      requires hook != null ==> hook.sink == sink
      modifies sink
      ensures warnings == FrameReports(present, st, show)
      ensures sink.Valid() && sink.inited == (old(sink.inited) || warnings != [])
      ensures sink.file == FileAfter(old(sink.inited), old(sink.file), host,
                                     Echoed(warnings, hook != null && hook.subscribed))
    {
      if !present || !st.running {
        return [];
      }
      ghost var hooked := hook != null && hook.subscribed;
      ghost var i0, f0 := sink.inited, sink.file;
      var left := CheckHand(st.left, "Left", show, hook, host);
      var right := CheckHand(st.right, "Right", show, hook, host);
      EchoedFileAppend(i0, f0, host, left, right, hooked);
      warnings := left + right;
    }
  }
}
