/** What the save process does to the files, over any sequence of events and timer expiries. */
module SaveProcess {
  import opened Messages
  import opened Decimals
  import opened Autosave

  /** Paths to contents; writes succeed. */
  type Files = map<string, string>

  datatype Paths = Paths(document: string, log: string)

  function BackupOf(path: string): string { path + ".bak" }

  function TmpOf(path: string): string { path + ".tmp" }

  function AutosaveOf(path: string): string { path + ".autosave" }

  /** The log is none of the files a save writes. */
  predicate LogApart(p: Paths) {
    p.log !in {p.document, BackupOf(p.document), TmpOf(p.document),
               AutosaveOf(p.document), TmpOf(AutosaveOf(p.document))}
  }

  function Content(files: Files, path: string): Option<string> {
    if path in files then Some(files[path]) else None
  }

  /** Write a temporary file beside it, then rename. */
  function AtomicWrite(files: Files, path: string, content: string): Files {
    (files - {TmpOf(path)})[path := content]
  }

  function WriteWithBackup(files: Files, path: string, content: string): Files {
    AtomicWrite(if path in files then files[BackupOf(path) := files[path]] else files, path, content)
  }

  function AppendLog(files: Files, path: string, entry: string): Files {
    files[path := (if path in files then files[path] else "") + entry + "\n"]
  }

  datatype Latest = Latest(version: nat, content: string)

  datatype Saver = Saver(files: Files, latest: Option<Latest>, running: bool)

  /** One trip round the loop: whether select found the pipe ready, and whether the timer was due after it. */
  datatype Turn = Turn(ready: bool, due: bool)

  function ManualEntry(version: nat, path: string): string {
    "{\"event\":\"manual_save\",\"version\":" + Decimal(version) + ",\"path\":\"" + path + "\"}"
  }

  function AutosaveEntry(version: nat, path: string): string {
    "{\"event\":\"autosave\",\"version\":" + Decimal(version) + ",\"path\":\"" + path + "\"}"
  }

  function Take(s: Saver, e: Event, p: Paths): Saver {
    match e
    case Snapshot(version, payload) => s.(latest := Some(Latest(version, payload)))
    case SaveNow(version, payload) =>
      s.(latest := Some(Latest(version, payload)),
         files := AppendLog(WriteWithBackup(s.files, p.document, payload), p.log, ManualEntry(version, p.document)))
    case Log(payload) => s.(files := AppendLog(s.files, p.log, payload))
    case Stop =>
      s.(running := false,
         files := if s.latest == None then s.files
                  else AtomicWrite(s.files, AutosaveOf(p.document), s.latest.value.content))
  }

  function Tick(s: Saver, p: Paths): Saver {
    if s.latest == None then s
    else
      var path := AutosaveOf(p.document);
      s.(files := AppendLog(AtomicWrite(s.files, path, s.latest.value.content), p.log,
                            AutosaveEntry(s.latest.value.version, path)))
  }

  function TimerAfter(s: Saver, due: bool, p: Paths): Saver {
    if due && s.running then Tick(s, p) else s
  }

  // ----- The loop on bytes, and on events -----

  /** A header that cannot be read is passed over, and the timer with it. */
  function RoundOnBytes(s: Saver, bytes: string, turn: Turn, p: Paths): (Saver, string) {
    if !turn.ready then (TimerAfter(s, turn.due, p), bytes)
    else
      match ReadEvent(bytes)
      case Ended => (s.(running := false), "")
      case Skipped(rest) => (s, rest)
      case Unknown(rest) => (TimerAfter(s, turn.due, p), rest)
      case Heard(e, rest) => (TimerAfter(Take(s, e, p), turn.due, p), rest)
  }

  function LoopOnBytes(s: Saver, bytes: string, turns: seq<Turn>, p: Paths): Saver
    decreases turns
  {
    if !s.running || turns == [] then s
    else
      var (t, rest) := RoundOnBytes(s, bytes, turns[0], p);
      LoopOnBytes(t, rest, turns[1..], p)
  }

  /** The same loop when every event arrives as it was sent. */
  function LoopOnEvents(s: Saver, events: seq<Event>, turns: seq<Turn>, p: Paths): Saver
    decreases turns
  {
    if !s.running || turns == [] then s
    else if !turns[0].ready then LoopOnEvents(TimerAfter(s, turns[0].due, p), events, turns[1..], p)
    else if events == [] then s.(running := false)
    else LoopOnEvents(TimerAfter(Take(s, events[0], p), turns[0].due, p), events[1..], turns[1..], p)
  }

  /** The framing is transparent: whatever the payloads contain, the loop on the bytes written is the loop
      on the events sent, in order, each once. */
  lemma {:induction false} LoopHearsEvents(s: Saver, events: seq<Event>, turns: seq<Turn>, p: Paths)
    requires forall k :: 0 <= k < |events| ==> Fitting(events[k])
    ensures LoopOnBytes(s, Frames(events), turns, p) == LoopOnEvents(s, events, turns, p)
    decreases turns
  {
    if s.running && turns != [] {
      if !turns[0].ready {
        LoopHearsEvents(TimerAfter(s, turns[0].due, p), events, turns[1..], p);
      } else if events != [] {
        EventRoundTrip(events[0], Frames(events[1..]));
        LoopHearsEvents(TimerAfter(Take(s, events[0], p), turns[0].due, p), events[1..], turns[1..], p);
      }
    }
  }

  // ----- What the files hold -----

  /** The events the process gets to. */
  function Reached(events: seq<Event>, turns: seq<Turn>): seq<Event>
    decreases turns
  {
    if turns == [] then []
    else if !turns[0].ready then Reached(events, turns[1..])
    else if events == [] then []
    else if events[0].Stop? then [Stop]
    else [events[0]] + Reached(events[1..], turns[1..])
  }

  /** The payloads saved. */
  function Saves(events: seq<Event>): seq<string> {
    if events == [] then []
    else if events[0].SaveNow? then [events[0].payload] + Saves(events[1..])
    else Saves(events[1..])
  }

  function OfficialAfter(official: Option<string>, saves: seq<string>): Option<string> {
    if saves == [] then official else Some(saves[|saves| - 1])
  }

  /** The document as it was just before the last save; the backup of before when there was none. */
  function BackupAfter(official: Option<string>, backup: Option<string>, saves: seq<string>): Option<string> {
    if |saves| >= 2 then Some(saves[|saves| - 2])
    else if |saves| == 1 && official.Some? then official
    else backup
  }

  lemma PathsDistinct(p: string)
    ensures p != BackupOf(p) && BackupOf(p) != TmpOf(p) && TmpOf(p) != p
    ensures AutosaveOf(p) !in {p, BackupOf(p), TmpOf(p)}
    ensures TmpOf(AutosaveOf(p)) !in {p, BackupOf(p), TmpOf(p), AutosaveOf(p)}
  {
    assert BackupOf(p)[|p| + 3] == 'k' && TmpOf(p)[|p| + 3] == 'p';
    assert |AutosaveOf(p)| == |p| + 9 && |TmpOf(AutosaveOf(p))| == |p| + 13 && |BackupOf(p)| == |TmpOf(p)| == |p| + 4;
  }

  /** Timers, snapshots and log entries leave the document and its backup alone. */
  lemma TimerLeavesDocument(s: Saver, due: bool, p: Paths)
    requires LogApart(p)
    ensures var t := TimerAfter(s, due, p);
            && Content(t.files, p.document) == Content(s.files, p.document)
            && Content(t.files, BackupOf(p.document)) == Content(s.files, BackupOf(p.document))
            && t.running == s.running && t.latest == s.latest
  {
    PathsDistinct(p.document);
  }

  lemma TakeExact(s: Saver, e: Event, p: Paths)
    requires LogApart(p)
    ensures var t := Take(s, e, p);
            && Content(t.files, p.document) == (if e.SaveNow? then Some(e.payload) else Content(s.files, p.document))
            && Content(t.files, BackupOf(p.document))
               == (if e.SaveNow? && Content(s.files, p.document).Some? then Content(s.files, p.document)
                   else Content(s.files, BackupOf(p.document)))
            && t.running == (s.running && !e.Stop?)
  {
    PathsDistinct(p.document);
  }

  /** Whatever else happens, the document holds the payload of the last SAVE_NOW, and its backup what the
      document held just before it. */
  lemma {:induction false} DocumentIsLastSave(s: Saver, events: seq<Event>, turns: seq<Turn>, p: Paths)
    requires LogApart(p) && s.running
    ensures var files, saves := LoopOnEvents(s, events, turns, p).files, Saves(Reached(events, turns));
            && Content(files, p.document) == OfficialAfter(Content(s.files, p.document), saves)
            && Content(files, BackupOf(p.document))
               == BackupAfter(Content(s.files, p.document), Content(s.files, BackupOf(p.document)), saves)
    decreases turns
  {
    if turns != [] {
      if !turns[0].ready {
        TimerLeavesDocument(s, turns[0].due, p);
        DocumentIsLastSave(TimerAfter(s, turns[0].due, p), events, turns[1..], p);
      } else if events != [] {
        var e := events[0];
        var t := Take(s, e, p);
        TakeExact(s, e, p);
        TimerLeavesDocument(t, turns[0].due, p);
        if e.Stop? {
          assert Saves([Stop]) == Saves([Stop][1..]) == [];
        } else {
          DocumentIsLastSave(TimerAfter(t, turns[0].due, p), events[1..], turns[1..], p);
          var more := Reached(events[1..], turns[1..]);
          assert Reached(events, turns) == [e] + more && ([e] + more)[1..] == more;
        }
      }
    }
  }

  /** On the bytes themselves: payloads that look like headers, or hold newlines, change nothing. */
  lemma SavedFilesExact(s: Saver, events: seq<Event>, turns: seq<Turn>, p: Paths)
    requires LogApart(p) && s.running && forall k :: 0 <= k < |events| ==> Fitting(events[k])
    ensures var files, saves := LoopOnBytes(s, Frames(events), turns, p).files, Saves(Reached(events, turns));
            && Content(files, p.document) == OfficialAfter(Content(s.files, p.document), saves)
            && Content(files, BackupOf(p.document))
               == BackupAfter(Content(s.files, p.document), Content(s.files, BackupOf(p.document)), saves)
  {
    LoopHearsEvents(s, events, turns, p);
    DocumentIsLastSave(s, events, turns, p);
  }

  /** The content of the last snapshot or save. */
  function LatestOf(latest: Option<Latest>, events: seq<Event>): Option<Latest>
    decreases events
  {
    if events == [] then latest
    else
      var e := events[0];
      LatestOf(if e.Snapshot? || e.SaveNow? then Some(Latest(e.version, e.payload)) else latest, events[1..])
  }

  /** A stopped process leaves its last content in the autosave file. */
  lemma {:induction false} StopSavesLatest(s: Saver, events: seq<Event>, turns: seq<Turn>, p: Paths)
    requires LogApart(p) && s.running
    requires var r := Reached(events, turns); r != [] && r[|r| - 1].Stop?
    ensures var t, latest := LoopOnEvents(s, events, turns, p), LatestOf(s.latest, Reached(events, turns));
            && !t.running && t.latest == latest
            && (latest.Some? ==> Content(t.files, AutosaveOf(p.document)) == Some(latest.value.content))
    decreases turns
  {
    if !turns[0].ready {
      TimerLeavesDocument(s, turns[0].due, p);
      StopSavesLatest(TimerAfter(s, turns[0].due, p), events, turns[1..], p);
    } else if events[0].Stop? {
      assert LatestOf(s.latest, [Stop]) == LatestOf(s.latest, [Stop][1..]) == s.latest;
    } else {
      var t := Take(s, events[0], p);
      TimerLeavesDocument(t, turns[0].due, p);
      var more := Reached(events[1..], turns[1..]);
      assert Reached(events, turns) == [events[0]] + more && ([events[0]] + more)[1..] == more;
      StopSavesLatest(TimerAfter(t, turns[0].due, p), events[1..], turns[1..], p);
    }
  }

  // ----- The process as it runs -----

  class Process {
    const paths: Paths
    var pipe: string
    var files: Files
    var latest: Option<Latest>

    constructor (paths: Paths, pipe: string, files: Files)
      ensures this.paths == paths && this.pipe == pipe && this.files == files && latest == None
    {
      this.paths, this.pipe, this.files, latest := paths, pipe, files, None;
    }

    /** Byte by byte, up to the newline. */
    method ReadLineFd(size: nat) returns (line: Option<string>)
      requires size > 0
      modifies this`pipe
      ensures match ReadLine(old(pipe), size)
              case GotLine(text, rest) => line == Some(text) && pipe == rest
              case NoLine => line == None
    {
      var text := "";
      ghost var goal := ReadLine(pipe, size);
      while |text| + 1 < size
        invariant |text| < size
        invariant goal == Continued(text, ReadLine(pipe, size - |text|))
        decreases size - |text|
      {
        if pipe == "" {
          return None;
        }
        var ch := pipe[0];
        pipe := pipe[1..];
        if ch == '\n' {
          assert text + "" == text;
          return Some(text);
        }
        OneByteMore(text, ch, ReadLine(pipe, size - |text| - 1));
        text := text + [ch];
      }
      return None;
    }

    /** Reads of any size, until `len` bytes are there or the pipe ends. */
    method ReadExactAlloc(len: nat) returns (data: Option<string>)
      modifies this`pipe
      ensures if |old(pipe)| < len then data == None else data == Some(old(pipe)[..len]) && pipe == old(pipe)[len..]
    {
      var read := "";
      ghost var all := pipe;
      while |read| < len
        invariant |read| <= len && read + pipe == all
        decreases len - |read|
      {
        if pipe == "" {
          return None;
        }
        assert 1 <= len - |read| && 1 <= |pipe|;
        var n: nat :| 1 <= n <= len - |read| && n <= |pipe|;
        read := read + pipe[..n];
        pipe := pipe[n..];
      }
      return Some(read);
    }

    method AtomicWriteText(path: string, content: string)
      modifies this`files
      ensures files == AtomicWrite(old(files), path, content)
    {
      files := files[TmpOf(path) := content];
      var text := files[TmpOf(path)];
      files := files - {TmpOf(path)};
      files := files[path := text];
    }

    method WriteFileWithBackup(path: string, content: string)
      modifies this`files
      ensures files == WriteWithBackup(old(files), path, content)
    {
      if path in files {
        files := files[BackupOf(path) := files[path]];
      }
      AtomicWriteText(path, content);
    }

    method AppendJsonLog(entry: string)
      modifies this`files
      ensures files == AppendLog(old(files), paths.log, entry)
    {
      files := files[paths.log := (if paths.log in files then files[paths.log] else "") + entry + "\n"];
    }

    /** One event that has been read in full. */
    method HandleEvent(name: string, version: nat, payload: string)
      modifies this`files, this`latest
      ensures var e := EventOf(name, version, payload);
              Saver(files, latest, true)
              == if e == None then old(Saver(files, latest, true))
                 else Take(old(Saver(files, latest, true)), e.value, paths)
    {
      if name == "SNAPSHOT" {
        latest := Some(Latest(version, payload));
      } else if name == "SAVE_NOW" {
        latest := Some(Latest(version, payload));
        WriteFileWithBackup(paths.document, payload);
        AppendJsonLog(ManualEntry(version, paths.document));
      } else if name == "LOG" {
        AppendJsonLog(payload);
      }
    }

    method Stop()
      modifies this`files
      ensures Saver(files, latest, false) == Take(old(Saver(files, latest, true)), Event.Stop, paths)
    {
      if latest.Some? {
        AtomicWriteText(AutosaveOf(paths.document), latest.value.content);
      }
    }

    /** Reads and handles one event; `running` is false after a break, `timer` after a continue. */
    method Hear() returns (running: bool, timer: bool)
      modifies this`pipe, this`files, this`latest
      ensures var s := old(Saver(files, latest, true));
              match ReadEvent(old(pipe))
              case Ended => !running && Saver(files, latest, true) == s
              case Skipped(rest) => running && !timer && pipe == rest && Saver(files, latest, true) == s
              case Unknown(rest) => running && timer && pipe == rest && Saver(files, latest, true) == s
              case Heard(e, rest) => running == !e.Stop? && (running ==> timer && pipe == rest)
                                     && Saver(files, latest, running) == Take(s, e, paths)
    {
      var header := ReadLineFd(HEADER_SIZE);
      if header == None {
        return false, false;
      }
      if header.value == "STOP" {
        Stop();
        return false, false;
      }
      var parsed := ParseHeader(header.value);
      if parsed.NoFields? {
        return true, false;
      }
      var payload := ReadExactAlloc(parsed.length);
      if payload == None {
        return false, false;
      }
      HandleEvent(parsed.name, parsed.version, payload.value);
      return true, true;
    }

    method AutosaveTick()
      modifies this`files
      ensures Saver(files, latest, true) == Tick(old(Saver(files, latest, true)), paths)
    {
      if latest.Some? {
        AtomicWriteText(AutosaveOf(paths.document), latest.value.content);
        AppendJsonLog(AutosaveEntry(latest.value.version, AutosaveOf(paths.document)));
      }
    }

    method Round(turn: Turn) returns (running: bool)
      modifies this`pipe, this`files, this`latest
      ensures var (s, rest) := RoundOnBytes(old(Saver(files, latest, true)), old(pipe), turn, paths);
              Saver(files, latest, running) == s && (running ==> pipe == rest)
    {
      var timer := true;
      running := true;
      if turn.ready {
        running, timer := Hear();
      }
      if running && timer && turn.due {
        AutosaveTick();
      }
    }

    /** The main loop, for any answers of select and of the clock. */
    method AutosaveLoop(turns: seq<Turn>)
      modifies this`pipe, this`files, this`latest
      ensures exists running ::
                Saver(files, latest, running)
                == LoopOnBytes(old(Saver(files, latest, true)), old(pipe), turns, paths)
    {
      var running := true;
      var i := 0;
      ghost var goal := LoopOnBytes(Saver(files, latest, true), pipe, turns, paths);
      assert turns[0..] == turns;
      while running && i < |turns|
        invariant i <= |turns|
        invariant goal == if running then LoopOnBytes(Saver(files, latest, true), pipe, turns[i..], paths)
                          else Saver(files, latest, false)
        decreases |turns| - i
      {
        assert turns[i..][0] == turns[i] && turns[i..][1..] == turns[i + 1..];
        running := Round(turns[i]);
        i := i + 1;
      }
      assert Saver(files, latest, running) == goal;
    }
  }

  function Continued(text: string, r: LineResult): LineResult {
    match r
    case NoLine => NoLine
    case GotLine(line, rest) => GotLine(text + line, rest)
  }

  lemma OneByteMore(text: string, ch: char, r: LineResult)
    ensures Continued(text, if r.GotLine? then GotLine([ch] + r.line, r.rest) else NoLine) == Continued(text + [ch], r)
  {
    if r.GotLine? {
      assert text + ([ch] + r.line) == text + [ch] + r.line;
    }
  }
}
