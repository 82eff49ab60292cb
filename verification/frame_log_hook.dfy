/** The console-to-file hook (`FrameLogHook`): while enabled it copies
    warnings, errors and exceptions into the durable log, and adds a
    `[FLAG]` line for messages that carry one of its four known patterns.
    Its pattern list is its own and shorter than the HUD's. */
module Hook {
  import opened Common
  import opened LogSink
  import Hud

  const AttachedLine: string := "[FrameLogHook] Attached."
  const DetachedLine: string := "[FrameLogHook] Detached."

  /** The severities the hook keeps. */
  predicate IsSevere(t: LogType)
  {
    t == Warning || t == Error || t == Exception
  }

  /** The hook's four patterns. */
  predicate IsHookFlagged(c: string)
  {
    || Contains(c, "FrameSetCollator")
    || Contains(c, "deadlineMissed")
    || Contains(c, "muxModeMisMatch")
    || Contains(c, "HANDTRACKING NaN")
  }

  function SeverityLine(c: string, t: LogType): string
  {
    "[" + LogTypeName(t) + "] " + c
  }

  function FlagLine(c: string): string
  {
    "[FLAG] " + c
  }

  /** The lines one message makes the hook write, in order: the severity
      line when the message is severe, then the flag line when it matches. */
  function HookLines(c: string, t: LogType): (lines: seq<string>)
    ensures |lines| == (if IsSevere(t) then 1 else 0) + (if IsHookFlagged(c) then 1 else 0)
    ensures SeverityLine(c, t) in lines <==> IsSevere(t)
    ensures FlagLine(c) in lines <==> IsHookFlagged(c)
    ensures IsSevere(t) ==> lines[0] == SeverityLine(c, t)
    ensures IsHookFlagged(c) ==> lines[|lines| - 1] == FlagLine(c)
  {
    var sev := SeverityLine(c, t);
    var flag := FlagLine(c);
    (if IsSevere(t) then [sev] else []) + (if IsHookFlagged(c) then [flag] else [])
  }

  /** Every message the hook flags is flagged by the HUD as well. */
  lemma HookFlagIsHudFlag(c: string)
    ensures IsHookFlagged(c) ==> Hud.IsFlagged(c)
  {
  }

  class FrameLogHook {
    /** The process-wide sink. */
    const sink: LogFile
    /** Subscribed to the console's message event. */
    var subscribed: bool

    constructor (sink: LogFile)
      ensures this.sink == sink && !subscribed
    {
      this.sink := sink;
      subscribed := false;
    }

    /** `OnEnable`: initialise the sink with the default prefix, subscribe,
        then write the attach line. */
    method OnEnable(host: Host)
      requires sink.Valid()
      modifies this`subscribed, sink
      ensures subscribed && sink.Valid() && sink.inited
      ensures sink.file == (if old(sink.inited) then old(sink.file)
                            else InitLines(host, LogPath(host, DefaultPrefix)))
                           + [Entry(host.lineStamp, AttachedLine)]
    {
      sink.Init(DefaultPrefix, host);
      subscribed := true;
      sink.WriteLine(AttachedLine, host);
    }

    /** `OnDisable`: unsubscribe, then write the detach line. */
    method OnDisable(host: Host)
      requires sink.Valid()
      modifies this`subscribed, sink
      ensures !subscribed && sink.Valid() && sink.inited
      ensures sink.file == FileAfter(old(sink.inited), old(sink.file), host, [DetachedLine])
    {
      subscribed := false;
      sink.WriteLine(DetachedLine, host);
    }

    /** `HandleLog`: write the message's lines through the sink, severity
        line first; nothing else is written. */
    method HandleLog(condition: string, kind: LogType, host: Host)
      requires sink.Valid()
      modifies sink
      ensures sink.Valid()
      ensures sink.file == FileAfter(old(sink.inited), old(sink.file), host, HookLines(condition, kind))
      ensures sink.inited == (old(sink.inited) || HookLines(condition, kind) != [])
      ensures HookLines(condition, kind) == [] ==> unchanged(sink)
    {
      ghost var i0, f0 := sink.inited, sink.file;
      ghost var written: seq<string> := [];
      if kind == Warning || kind == Error || kind == Exception {
        sink.WriteLine("[" + LogTypeName(kind) + "] " + condition, host);
        written := [SeverityLine(condition, kind)];
      }
      assert sink.file == FileAfter(i0, f0, host, written);
      if || Contains(condition, "FrameSetCollator")
         || Contains(condition, "deadlineMissed")
         || Contains(condition, "muxModeMisMatch")
         || Contains(condition, "HANDTRACKING NaN")
      {
        FileAfterSnoc(i0, f0, host, written, FlagLine(condition));
        sink.WriteLine("[FLAG] " + condition, host);
        written := written + [FlagLine(condition)];
      }
      assert written == HookLines(condition, kind);
    }

    /** The console delivering a message: only a subscribed hook sees it. */
    method Receive(condition: string, kind: LogType, host: Host)
      requires sink.Valid()
      modifies sink
      ensures sink.Valid()
      ensures sink.file == if subscribed then FileAfter(old(sink.inited), old(sink.file), host, HookLines(condition, kind))
                           else old(sink.file)
      ensures sink.inited == (old(sink.inited) || (subscribed && HookLines(condition, kind) != []))
    {
      if subscribed {
        HandleLog(condition, kind, host);
      }
    }
  }
}
