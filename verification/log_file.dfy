/** The durable diagnostic sink (`LogFile`): one file per process run,
    created lazily and at most once, to which every producer appends
    time-stamped lines. The file is the sequence of entries written so far. */
module LogSink {
  import opened Common

  /** What the host environment supplies to a call: the persistent data
      path, the UTC stamp used in file names (`yyyyMMdd_HHmmss`), the
      time-of-day stamp put in front of each line (`HH:mm:ss.fff`) and the
      "Unity <version> | <device> | <os>" description of the `[ENV]` line. */
  datatype Host = Host(persistentDataPath: string, fileStamp: string, lineStamp: string, environment: string)

  const DefaultPrefix: string := "hand_passthrough_test"

  /** `Path.Combine` on the device: directory, separator, name. */
  function Combine(dir: string, name: string): string
  {
    dir + "/" + name
  }

  function LogDir(host: Host): string
  {
    Combine(host.persistentDataPath, "logs")
  }

  /** `{dir}/{prefix}_{ts}.log` */
  function LogPath(host: Host, prefix: string): (path: string)
    ensures StartsWith(path, LogDir(host) + "/" + prefix + "_")
    ensures |path| >= 4 && path[|path| - 4..] == ".log"
  {
    var path := Combine(LogDir(host), prefix + "_" + host.fileStamp + ".log");
    assert path == LogDir(host) + "/" + prefix + "_" + (host.fileStamp + ".log");
    path
  }

  /** One persisted line: `[{ts}] {line}\n`. */
  function Entry(stamp: string, line: string): string
  {
    "[" + stamp + "] " + line + "\n"
  }

  /** The two lines the first initialisation writes, in order. */
  function InitLines(host: Host, path: string): seq<string>
  {
    [Entry(host.lineStamp, "[INIT] Log started: " + path),
     Entry(host.lineStamp, "[ENV] " + host.environment)]
  }

  /** What a tool scanning the file recovers from one entry: its stamp and
      its text, or `None` when the entry is not of the `[ts] text\n` shape. */
  function ParseEntry(e: string): Option<(string, string)>
  {
    if |e| < 4 || e[0] != '[' || e[|e| - 1] != '\n' then None
    else
      var k := 1 + IndexOf(e[1..], ']');
      if k + 2 <= |e| - 1 && e[k + 1] == ' ' then Some((e[1..k], e[k + 2..|e| - 1]))
      else None
  }

  /** Every entry can be read back: the stamp and the line come out as they
      went in, provided the stamp holds no `]` (a `HH:mm:ss.fff` stamp never does). */
  lemma EntryRoundTrip(stamp: string, line: string)
    requires ']' !in stamp
    ensures ParseEntry(Entry(stamp, line)) == Some((stamp, line))
  {
    var e := Entry(stamp, line);
    assert e[1..] == stamp + "] " + line + "\n";
    var k := 1 + IndexOf(e[1..], ']');
    assert (stamp + "] " + line + "\n")[|stamp|] == ']';
    assert forall j :: 0 <= j < |stamp| ==> e[1..][j] == stamp[j];
    assert k == |stamp| + 1;
    assert e[1..k] == stamp;
    assert e[k + 2..|e| - 1] == line;
  }

  /** The entries `WriteLine` appends for `lines`, one per line, in order. */
  function Entries(stamp: string, lines: seq<string>): (es: seq<string>)
    ensures |es| == |lines|
    ensures forall i :: 0 <= i < |lines| ==> es[i] == Entry(stamp, lines[i])
  {
    seq(|lines|, i requires 0 <= i < |lines| => Entry(stamp, lines[i]))
  }

  /** The file after `WriteLine` has been called on each of `lines` in turn,
      starting from a sink that is (`inited`) or is not yet initialised: the
      first write into a fresh sink initialises it with the default prefix. */
  function FileAfter(inited: bool, file: seq<string>, host: Host, lines: seq<string>): seq<string>
  {
    if lines == [] then file
    else if inited then file + Entries(host.lineStamp, lines)
    else InitLines(host, LogPath(host, DefaultPrefix)) + Entries(host.lineStamp, lines)
  }

  /** A single write: one entry appended, after the two initial lines
      when the sink was fresh. */
  lemma FileAfterOne(inited: bool, file: seq<string>, host: Host, line: string)
    ensures FileAfter(inited, file, host, [line])
            == (if inited then file else InitLines(host, LogPath(host, DefaultPrefix))) + [Entry(host.lineStamp, line)]
  {
    assert Entries(host.lineStamp, [line]) == [Entry(host.lineStamp, line)];
  }

  /** One more write: once the sink is initialised (or something has been
      written) it appends one entry; otherwise it is the first write. */
  lemma FileAfterSnoc(inited: bool, file: seq<string>, host: Host, lines: seq<string>, line: string)
    ensures FileAfter(inited, file, host, lines + [line])
            == if inited || lines != [] then FileAfter(inited, file, host, lines) + [Entry(host.lineStamp, line)]
               else FileAfter(false, file, host, [line])
  {
    var es := Entries(host.lineStamp, lines + [line]);
    assert es == Entries(host.lineStamp, lines) + [Entry(host.lineStamp, line)];
  }

  /** Writing `a` and then `b` is writing `a + b`: the second batch starts
      from the state the first one left (initialised once anything was written). */
  lemma FileAfterAppend(inited: bool, file: seq<string>, host: Host, a: seq<string>, b: seq<string>)
    ensures FileAfter(inited || a != [], FileAfter(inited, file, host, a), host, b)
            == FileAfter(inited, file, host, a + b)
  {
    var stamp := host.lineStamp;
    if a != [] && b != [] {
      assert Entries(stamp, a + b) == Entries(stamp, a) + Entries(stamp, b);
    }
    if a == [] {
      assert a + b == b;
    }
  }

  /** The sink. `Init` and `WriteLine` are the static methods of the source;
      one object stands for the process-wide static state. */
  class LogFile {
    var inited: bool
    var dir: string
    var path: string
    /** The entries of the file at `path`, oldest first. */
    var file: seq<string>

    ghost predicate Valid()
      reads this
    {
      !inited ==> file == []
    }

    /** The static state before any call. */
    constructor ()
      ensures Valid() && !inited && file == []
    {
      inited := false;
      dir := "";
      path := "";
      file := [];
    }

    /** `Init(prefix)`: the first call fixes the directory and the path and
        writes `[INIT]` then `[ENV]`; every later call does nothing. The flag
        is set before the two nested writes, so they do not initialise again. */
    method Init(prefix: string, host: Host)
      requires Valid()
      modifies this
      decreases if inited then 0 else 2
      ensures Valid() && inited
      ensures old(inited) ==> unchanged(this)
      ensures !old(inited) ==> dir == LogDir(host) && path == LogPath(host, prefix)
                               && file == InitLines(host, path)
    {
      if inited {
        return;
      }
      dir := LogDir(host);
      path := Combine(dir, prefix + "_" + host.fileStamp + ".log");
      inited := true;
      WriteLine("[INIT] Log started: " + path, host);
      WriteLine("[ENV] " + host.environment, host);
    }

    /** `WriteLine(line)`: initialise with the default prefix if needed, then
        append exactly one entry at the end; earlier entries stay as they were. */
    method WriteLine(line: string, host: Host)
      requires Valid()
      modifies this
      decreases if inited then 0 else 3
      ensures Valid() && inited
      ensures old(inited) ==> dir == old(dir) && path == old(path)
                              && file == old(file) + [Entry(host.lineStamp, line)]
      ensures !old(inited) ==> dir == LogDir(host) && path == LogPath(host, DefaultPrefix)
                               && file == InitLines(host, path) + [Entry(host.lineStamp, line)]
    {
      if !inited {
        Init(DefaultPrefix, host);
      }
      file := file + [Entry(host.lineStamp, line)];
    }
  }
}
