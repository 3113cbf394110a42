/** What the autosave file and the log hold after any run of the save process, told from the events it got to and
    the times its timer was due. */
module SaveHistory {
  import opened Messages
  import opened Autosave
  import opened SaveProcess

  /** What happens to the process: an event is taken, or the timer comes due. */
  datatype Moment = Took(event: Event) | Due

  function DueAfter(due: bool): seq<Moment> {
    if due then [Due] else []
  }

  /** Each round takes at most one event, and then looks at the timer; a STOP, or the end of the pipe, is the end. */
  function Moments(events: seq<Event>, turns: seq<Turn>): seq<Moment>
    decreases turns
  {
    if turns == [] then []
    else if !turns[0].ready then DueAfter(turns[0].due) + Moments(events, turns[1..])
    else if events == [] then []
    else if events[0].Stop? then [Took(Stop)]
    else [Took(events[0])] + DueAfter(turns[0].due) + Moments(events[1..], turns[1..])
  }

  // ----- Telling the files from the moments -----

  /** The content of the last snapshot or save. */
  function LatestAt(latest: Option<Latest>, moments: seq<Moment>): Option<Latest> {
    if moments == [] then latest
    else
      var last := moments[|moments| - 1];
      if last.Took? && (last.event.Snapshot? || last.event.SaveNow?)
      then Some(Latest(last.event.version, last.event.payload))
      else LatestAt(latest, moments[..|moments| - 1])
  }

  /** The latest content at the last time the timer was due or a STOP came; what was there before, when there has
      been no such time, or nothing to save by then. */
  function AutosavedAt(file: Option<string>, latest: Option<Latest>, moments: seq<Moment>): Option<string> {
    if moments == [] then file
    else
      var earlier, last := moments[..|moments| - 1], moments[|moments| - 1];
      if (last == Due || last == Took(Stop)) && LatestAt(latest, earlier).Some?
      then Some(LatestAt(latest, earlier).value.content)
      else AutosavedAt(file, latest, earlier)
  }

  function LineOf(latest: Option<Latest>, m: Moment, p: Paths): string {
    match m
    case Due => if latest.Some? then AutosaveEntry(latest.value.version, AutosaveOf(p.document)) + "\n" else ""
    case Took(SaveNow(version, _)) => ManualEntry(version, p.document) + "\n"
    case Took(Log(payload)) => payload + "\n"
    case Took(Snapshot(_, _)) => ""
    case Took(Stop) => ""
  }

  /** One line for each log event, each save, and each time the timer found something to save, in order. */
  function LinesAt(latest: Option<Latest>, moments: seq<Moment>, p: Paths): string {
    if moments == [] then ""
    else
      var earlier := moments[..|moments| - 1];
      LinesAt(latest, earlier, p) + LineOf(LatestAt(latest, earlier), moments[|moments| - 1], p)
  }

  function Appended(file: Option<string>, lines: string): Option<string> {
    if lines == "" then file else Some((if file == None then "" else file.value) + lines)
  }

  /** The names and lines on disk. */
  lemma LooksLike(version: nat, path: string)
    ensures BackupOf(path) == path + ".bak" && TmpOf(path) == path + ".tmp" && AutosaveOf(path) == path + ".autosave"
    ensures ManualEntry(version, path)
            == "{\"event\":\"manual_save\",\"version\":"
               + (Decimals.Decimal(version) + (",\"path\":\"" + (path + "\"}")))
    ensures AutosaveEntry(version, path)
            == "{\"event\":\"autosave\",\"version\":"
               + (Decimals.Decimal(version) + (",\"path\":\"" + (path + "\"}")))
  {
  }

  // ----- The process, moment by moment -----

  function Step(s: Saver, m: Moment, p: Paths): Saver {
    if m == Due then Tick(s, p) else Take(s, m.event, p)
  }

  function AfterMoments(s: Saver, moments: seq<Moment>, p: Paths): Saver {
    if moments == [] then s else Step(AfterMoments(s, moments[..|moments| - 1], p), moments[|moments| - 1], p)
  }

  lemma {:induction false} AfterBoth(s: Saver, a: seq<Moment>, b: seq<Moment>, p: Paths)
    ensures AfterMoments(s, a + b, p) == AfterMoments(AfterMoments(s, a, p), b, p)
    decreases b
  {
    if b == [] {
      assert a + b == a;
    } else {
      assert (a + b)[..|a + b| - 1] == a + b[..|b| - 1];
      AfterBoth(s, a, b[..|b| - 1], p);
    }
  }

  lemma AfterTimer(s: Saver, due: bool, p: Paths)
    requires s.running
    ensures AfterMoments(s, DueAfter(due), p) == TimerAfter(s, due, p)
  {
    if due {
      AfterOne(s, Due, p);
    }
  }

  lemma AfterOne(s: Saver, m: Moment, p: Paths)
    ensures AfterMoments(s, [m], p) == Step(s, m, p)
  {
    assert [m][..0] == [];
  }

  /** The loop does what happens to it, in order, and nothing else. */
  lemma {:induction false} LoopIsMoments(s: Saver, events: seq<Event>, turns: seq<Turn>, p: Paths)
    requires s.running
    ensures LoopOnEvents(s, events, turns, p).files == AfterMoments(s, Moments(events, turns), p).files
    ensures LoopOnEvents(s, events, turns, p).latest == AfterMoments(s, Moments(events, turns), p).latest
    decreases turns
  {
    if turns != [] {
      var due := DueAfter(turns[0].due);
      if !turns[0].ready {
        AfterTimer(s, turns[0].due, p);
        AfterBoth(s, due, Moments(events, turns[1..]), p);
        LoopIsMoments(TimerAfter(s, turns[0].due, p), events, turns[1..], p);
      } else if events != [] {
        var t := Take(s, events[0], p);
        AfterOne(s, Took(events[0]), p);
        if !events[0].Stop? {
          AfterTimer(t, turns[0].due, p);
          AfterBoth(s, [Took(events[0])], due, p);
          AfterBoth(s, [Took(events[0])] + due, Moments(events[1..], turns[1..]), p);
          LoopIsMoments(TimerAfter(t, turns[0].due, p), events[1..], turns[1..], p);
        }
      }
    }
  }

  // ----- What it leaves -----

  lemma StepLeaves(s: Saver, m: Moment, p: Paths)
    requires LogApart(p)
    ensures var t := Step(s, m, p);
            && t.latest == (if m.Took? && (m.event.Snapshot? || m.event.SaveNow?)
                            then Some(Latest(m.event.version, m.event.payload)) else s.latest)
            && Content(t.files, AutosaveOf(p.document))
               == (if (m == Due || m == Took(Stop)) && s.latest.Some? then Some(s.latest.value.content)
                   else Content(s.files, AutosaveOf(p.document)))
            && Content(t.files, p.log) == Appended(Content(s.files, p.log), LineOf(s.latest, m, p))
  {
    PathsDistinct(p.document);
    if LineOf(s.latest, m, p) != "" {
      LineAppended(s, m, p);
    }
  }

  lemma LineAppended(s: Saver, m: Moment, p: Paths)
    requires LogApart(p) && LineOf(s.latest, m, p) != ""
    ensures var before := if p.log in s.files then s.files[p.log] else "";
            Content(Step(s, m, p).files, p.log) == Some(before + LineOf(s.latest, m, p))
  {
    var before := if p.log in s.files then s.files[p.log] else "";
    match m
    case Due =>
      var entry := AutosaveEntry(s.latest.value.version, AutosaveOf(p.document));
      assert before + entry + "\n" == before + (entry + "\n");
    case Took(SaveNow(version, _)) =>
      assert before + ManualEntry(version, p.document) + "\n" == before + (ManualEntry(version, p.document) + "\n");
    case Took(Log(payload)) => assert before + payload + "\n" == before + (payload + "\n");
  }

  lemma AppendedTwice(file: Option<string>, a: string, b: string)
    ensures Appended(Appended(file, a), b) == Appended(file, a + b)
  {
    if a == "" {
      assert a + b == b;
    } else if b == "" {
      assert a + b == a;
    } else {
      var base := if file == None then "" else file.value;
      assert base + a + b == base + (a + b);
    }
  }

  lemma {:induction false} MomentsLeave(s: Saver, moments: seq<Moment>, p: Paths)
    requires LogApart(p)
    ensures var t := AfterMoments(s, moments, p);
            && t.latest == LatestAt(s.latest, moments)
            && Content(t.files, AutosaveOf(p.document))
               == AutosavedAt(Content(s.files, AutosaveOf(p.document)), s.latest, moments)
            && Content(t.files, p.log) == Appended(Content(s.files, p.log), LinesAt(s.latest, moments, p))
  {
    if moments != [] {
      var earlier, last := moments[..|moments| - 1], moments[|moments| - 1];
      MomentsLeave(s, earlier, p);
      StepLeaves(AfterMoments(s, earlier, p), last, p);
      AppendedTwice(Content(s.files, p.log), LinesAt(s.latest, earlier, p),
                    LineOf(LatestAt(s.latest, earlier), last, p));
    }
  }

  /** The autosave file and the log, exactly, whatever the events and however the timer falls: the file holds what
      was latest when it was last due or a STOP came, and the log has grown by one line for each log event, each
      save and each time something was autosaved, in order. */
  lemma AutosaveExact(s: Saver, events: seq<Event>, turns: seq<Turn>, p: Paths)
    requires LogApart(p) && s.running
    ensures var files, moments := LoopOnEvents(s, events, turns, p).files, Moments(events, turns);
            && Content(files, AutosaveOf(p.document))
               == AutosavedAt(Content(s.files, AutosaveOf(p.document)), s.latest, moments)
            && Content(files, p.log) == Appended(Content(s.files, p.log), LinesAt(s.latest, moments, p))
  {
    LoopIsMoments(s, events, turns, p);
    MomentsLeave(s, Moments(events, turns), p);
  }

  /** The same on the bytes of the pipe. */
  lemma AutosavedFilesExact(s: Saver, events: seq<Event>, turns: seq<Turn>, p: Paths)
    requires LogApart(p) && s.running && forall k :: 0 <= k < |events| ==> Fitting(events[k])
    ensures var files, moments := LoopOnBytes(s, Frames(events), turns, p).files, Moments(events, turns);
            && Content(files, AutosaveOf(p.document))
               == AutosavedAt(Content(s.files, AutosaveOf(p.document)), s.latest, moments)
            && Content(files, p.log) == Appended(Content(s.files, p.log), LinesAt(s.latest, moments, p))
  {
    LoopHearsEvents(s, events, turns, p);
    AutosaveExact(s, events, turns, p);
  }

  // ----- What is not an event -----

  /** A header that cannot be read is passed over, and that round does not look at the timer; an event of no known
      name is passed over with its payload, and the round does; and a payload cut short by the end of the pipe ends
      the process, with nothing written. */
  lemma OddRounds(s: Saver, line: string, rest: string, due: bool, p: Paths)
    requires '\n' !in line && |line| < 127 && line != "STOP"
    ensures var (t, left) := RoundOnBytes(s, line + "\n" + rest, Turn(true, due), p);
            match ParseHeader(line)
            case NoFields => t == s && left == rest
            case Fields(name, version, length) =>
              if |rest| < length then t.files == s.files && !t.running
              else if name !in {"SNAPSHOT", "SAVE_NOW", "LOG"} then t == TimerAfter(s, due, p) && left == rest[length..]
              else left == rest[length..]
  {
    ReadLineExact(line, rest, HEADER_SIZE);
  }

  lemma {:induction false} NoLineWithout(bytes: string, size: nat)
    requires size > 0 && '\n' !in bytes[..if |bytes| < size - 1 then |bytes| else size - 1]
    ensures ReadLine(bytes, size) == NoLine
    decreases size
  {
    if size > 1 && bytes != "" {
      var cut, rest := bytes[..if |bytes| < size - 1 then |bytes| else size - 1], bytes[1..];
      assert bytes[0] == cut[0] && cut[1..] == rest[..if |rest| < size - 2 then |rest| else size - 2];
      NoLineWithout(rest, size - 1);
    }
  }

  /** A header of 127 bytes or more, or one cut short by the end of the pipe, ends the process. */
  lemma NoHeaderEnds(s: Saver, bytes: string, due: bool, p: Paths)
    requires '\n' !in bytes[..if |bytes| < 127 then |bytes| else 127]
    ensures RoundOnBytes(s, bytes, Turn(true, due), p).0 == s.(running := false)
  {
    NoLineWithout(bytes, HEADER_SIZE);
  }

  // ----- And nothing else -----

  /** The files a save process may write. */
  function Own(p: Paths): set<string> {
    {p.document, BackupOf(p.document), TmpOf(p.document), AutosaveOf(p.document), TmpOf(AutosaveOf(p.document)), p.log}
  }

  lemma {:induction false} OthersUntouched(s: Saver, moments: seq<Moment>, p: Paths, path: string)
    requires path !in Own(p)
    ensures Content(AfterMoments(s, moments, p).files, path) == Content(s.files, path)
  {
    if moments != [] {
      OthersUntouched(s, moments[..|moments| - 1], p, path);
    }
  }

  /** No other file is touched, and a temporary file that was not there is not left behind. */
  lemma OnlyItsOwnFiles(s: Saver, events: seq<Event>, turns: seq<Turn>, p: Paths, path: string)
    requires LogApart(p) && s.running
    ensures var files := LoopOnEvents(s, events, turns, p).files;
            && (path !in Own(p) ==> Content(files, path) == Content(s.files, path))
            && (path in {TmpOf(p.document), TmpOf(AutosaveOf(p.document))} && path !in s.files ==> path !in files)
  {
    LoopIsMoments(s, events, turns, p);
    if path !in Own(p) {
      OthersUntouched(s, Moments(events, turns), p, path);
    }
    if path in {TmpOf(p.document), TmpOf(AutosaveOf(p.document))} && path !in s.files {
      NothingLeftBehind(s, Moments(events, turns), p, path);
    }
  }

  lemma {:induction false} NothingLeftBehind(s: Saver, moments: seq<Moment>, p: Paths, path: string)
    requires LogApart(p) && path in {TmpOf(p.document), TmpOf(AutosaveOf(p.document))} && path !in s.files
    ensures path !in AfterMoments(s, moments, p).files
  {
    PathsDistinct(p.document);
    if moments != [] {
      NothingLeftBehind(s, moments[..|moments| - 1], p, path);
    }
  }
}
