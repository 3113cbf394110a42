/** The save process of autosave.c: events framed on a pipe, and the files they leave behind. */
module Autosave {
  import opened Operations
  import opened Messages
  import opened Decimals
  import opened Json

  datatype Event =
    | Snapshot(version: nat, payload: string)
    | SaveNow(version: nat, payload: string)
    | Log(payload: string)
    | Stop

  const HEADER_SIZE := 128
  const SIZE_MAX := 0xFFFF_FFFF_FFFF_FFFF

  // ----- Writing events -----

  function Header(name: string, version: nat, length: nat): string {
    name + (" " + (Decimal(version) + (" " + Decimal(length))))
  }

  function PayloadFrame(name: string, version: nat, payload: string): string {
    Header(name, version, |payload|) + "\n" + payload
  }

  function Frame(e: Event): string {
    match e
    case Snapshot(version, payload) => PayloadFrame("SNAPSHOT", version, payload)
    case SaveNow(version, payload) => PayloadFrame("SAVE_NOW", version, payload)
    case Log(payload) => PayloadFrame("LOG", 0, payload)
    case Stop => "STOP\n"
  }

  function Frames(events: seq<Event>): string {
    if events == [] then "" else Frame(events[0]) + Frames(events[1..])
  }

  // ----- Reading events -----

  datatype LineResult = GotLine(line: string, rest: string) | NoLine

  /** A line of fewer than `size` bytes, with its newline; anything else ends the process. */
  function ReadLine(bytes: string, size: nat): LineResult
    decreases size
  {
    if size <= 1 || bytes == "" then NoLine
    else if bytes[0] == '\n' then GotLine("", bytes[1..])
    else
      var r := ReadLine(bytes[1..], size - 1);
      if r.GotLine? then GotLine([bytes[0]] + r.line, r.rest) else NoLine
  }

  /** Up to `width` characters before white space. */
  function Word(s: string, width: nat): string
    decreases width
  {
    if width == 0 || s == "" || IsSpace(s[0]) then "" else [s[0]] + Word(s[1..], width - 1)
  }

  datatype Parsed = Fields(name: string, version: nat, length: nat) | NoFields

  /** The unsigned numeral after white space, and what follows it. */
  function Numeral(s: string): Option<(nat, string)> {
    var t := SkipWs(s);
    var digits := LeadingDigits(t);
    LeadingDigitsAreDigits(t);
    if digits == "" then None else Some((ParseDigits(digits), t[Min(|digits|, |t|)..]))
  }

  /** sscanf "%31s %d %zu", on unsigned numerals. */
  function ParseHeader(line: string): Parsed {
    var s := SkipWs(line);
    var name := Word(s, 31);
    var version := Numeral(s[Min(|name|, |s|)..]);
    if name == "" || version == None then NoFields
    else
      var length := Numeral(version.value.1);
      if length == None then NoFields else Fields(name, version.value.0, length.value.0)
  }

  /** What one round of reading brings: an event, an event of no known name, a header to be skipped, or the end. */
  datatype Heard = Heard(event: Event, rest: string) | Unknown(rest: string) | Skipped(rest: string) | Ended

  function EventOf(name: string, version: nat, payload: string): Option<Event> {
    if name == "SNAPSHOT" then Some(Snapshot(version, payload))
    else if name == "SAVE_NOW" then Some(SaveNow(version, payload))
    else if name == "LOG" then Some(Log(payload))
    else None
  }

  function ReadEvent(bytes: string): Heard {
    match ReadLine(bytes, HEADER_SIZE)
    case NoLine => Ended
    case GotLine(line, rest) =>
      if line == "STOP" then Heard(Stop, rest)
      else
        match ParseHeader(line)
        case NoFields => Skipped(rest)
        case Fields(name, version, length) =>
          if |rest| < length then Ended
          else
            var event := EventOf(name, version, rest[..length]);
            if event.Some? then Heard(event.value, rest[length..]) else Unknown(rest[length..])
  }

  // ----- Framing round trip -----

  /** Fits the types of version and length. */
  predicate Fitting(e: Event) {
    e.Stop? || (|e.payload| <= SIZE_MAX && (!e.Log? ==> e.version <= INT_MAX))
  }

  lemma {:induction false} ReadLineExact(line: string, rest: string, size: nat)
    requires '\n' !in line && |line| + 1 < size
    ensures ReadLine(line + "\n" + rest, size) == GotLine(line, rest)
  {
    var s := line + "\n" + rest;
    if line == "" {
      assert s[0] == '\n' && s[1..] == rest;
    } else {
      ReadLineExact(line[1..], rest, size - 1);
      assert s[0] == line[0] && s[1..] == line[1..] + "\n" + rest;
    }
  }

  lemma {:induction false} WordExact(name: string, rest: string, width: nat)
    requires |name| <= width && rest != "" && IsSpace(rest[0]) && forall i :: 0 <= i < |name| ==> !IsSpace(name[i])
    ensures Word(name + rest, width) == name
  {
    if name == "" {
      assert name + rest == rest;
    } else {
      WordExact(name[1..], rest, width - 1);
      assert (name + rest)[0] == name[0] && (name + rest)[1..] == name[1..] + rest;
    }
  }

  function Pow10(k: nat): nat {
    if k == 0 then 1 else 10 * Pow10(k - 1)
  }

  lemma {:induction false} DecimalLength(n: nat, k: nat)
    requires k > 0 && n < Pow10(k)
    ensures |Decimal(n)| <= k
  {
    if n >= 10 {
      DecimalLength(n / 10, k - 1);
    }
  }

  lemma HeaderLength(name: string, version: nat, length: nat)
    requires |name| <= 8 && version <= INT_MAX && length <= SIZE_MAX
    ensures |Header(name, version, length)| <= 40
  {
    assert Pow10(5) == 100000;
    assert Pow10(10) == 100000 * Pow10(5);
    assert Pow10(15) == 100000 * Pow10(10);
    assert Pow10(20) == 100000 * Pow10(15);
    DecimalLength(version, 10);
    DecimalLength(length, 20);
  }

  predicate Plain(name: string) {
    name != "" && forall i :: 0 <= i < |name| ==> name[i] > ' '
  }

  lemma SkipOneSpace(s: string)
    requires s != "" && !IsSpace(s[0])
    ensures SkipWs(" " + s) == s
  {
    assert (" " + s)[1..] == s;
    assert SkipWs(s) == s;
  }

  lemma NumeralRead(n: nat, rest: string)
    requires rest == "" || !IsDigit(rest[0])
    ensures Numeral(" " + (Decimal(n) + rest)) == Some((n, rest))
  {
    DecimalRoundTrip(n);
    DigitsBefore(Decimal(n), rest);
    NumeralSplit(Decimal(n), rest);
  }

  lemma NumeralSplit(digits: string, rest: string)
    requires digits != "" && AllDigits(digits) && LeadingDigits(digits + rest) == digits
    ensures Numeral(" " + (digits + rest)) == Some((ParseDigits(digits), rest))
  {
    assert (digits + rest)[0] == digits[0] && (digits + rest)[|digits|..] == rest;
    SkipOneSpace(digits + rest);
  }

  lemma {:induction false} DigitsBefore(digits: string, rest: string)
    requires AllDigits(digits) && (rest == "" || !IsDigit(rest[0]))
    ensures LeadingDigits(digits + rest) == digits
  {
    if digits == "" {
      assert digits + rest == rest;
    } else {
      DigitsBefore(digits[1..], rest);
      assert (digits + rest)[0] == digits[0] && (digits + rest)[1..] == digits[1..] + rest;
    }
  }

  lemma HeaderParses(name: string, version: nat, length: nat)
    requires Plain(name) && |name| <= 31
    ensures ParseHeader(Header(name, version, length)) == Fields(name, version, length)
  {
    var l := Decimal(length);
    var rest := " " + (Decimal(version) + (" " + l));
    NumeralRead(length, "");
    assert l + "" == l;
    NumeralRead(version, " " + l);
    WordExact(name, rest, 31);
    NameSplits(name, rest);
  }

  lemma NameSplits(name: string, rest: string)
    requires Plain(name)
    ensures SkipWs(name + rest) == name + rest && (name + rest)[|name|..] == rest
  {
    assert (name + rest)[0] == name[0];
  }

  lemma HeaderIsLine(name: string, version: nat, length: nat)
    requires Plain(name) && name != "STOP"
    ensures '\n' !in Header(name, version, length) && Header(name, version, length) != "STOP"
  {
    DecimalRoundTrip(version);
    DecimalRoundTrip(length);
    var h := Header(name, version, length);
    assert h[|name|] == ' ';
    assert forall i :: 0 <= i < |h| ==> h[i] >= ' ';
    assert "STOP"[0] != ' ' && "STOP"[1] != ' ' && "STOP"[2] != ' ' && "STOP"[3] != ' ';
  }

  lemma FrameParts(header: string, payload: string, more: string)
    ensures header + "\n" + payload + more == header + "\n" + (payload + more)
    ensures (payload + more)[..|payload|] == payload && (payload + more)[|payload|..] == more
  {
  }

  lemma PayloadRoundTrip(name: string, version: nat, payload: string, more: string)
    requires Plain(name) && |name| <= 8 && name != "STOP" && version <= INT_MAX && |payload| <= SIZE_MAX
    ensures var event := EventOf(name, version, payload);
            ReadEvent(PayloadFrame(name, version, payload) + more)
            == if event.Some? then Heard.Heard(event.value, more) else Unknown(more)
  {
    var header := Header(name, version, |payload|);
    HeaderLength(name, version, |payload|);
    HeaderIsLine(name, version, |payload|);
    HeaderParses(name, version, |payload|);
    FrameParts(header, payload, more);
    ReadLineExact(header, payload + more, HEADER_SIZE);
  }

  /** A written event is read back, whatever its payload looks like, and nothing after it is touched. */
  lemma EventRoundTrip(e: Event, more: string)
    requires Fitting(e)
    ensures ReadEvent(Frame(e) + more) == Heard.Heard(e, more)
  {
    match e
    case Stop =>
      ReadLineExact("STOP", more, HEADER_SIZE);
      assert "STOP\n" + more == "STOP" + "\n" + more;
    case Snapshot(version, payload) => PayloadRoundTrip("SNAPSHOT", version, payload, more);
    case SaveNow(version, payload) =>
      assert "SAVE_NOW"[1] != "SNAPSHOT"[1];
      PayloadRoundTrip("SAVE_NOW", version, payload, more);
    case Log(payload) =>
      assert |"LOG"| == 3 && |"SAVE_NOW"| == |"SNAPSHOT"| == 8;
      PayloadRoundTrip("LOG", 0, payload, more);
  }
}
