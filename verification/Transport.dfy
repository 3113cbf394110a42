/** The receiving end of a connection: lines reassembled from whatever pieces the socket hands out. */
module Transports {
  import opened Protocol
  import opened ProtocolLoops

  const MAX_LINE_BYTES := 1024 * 1024

  /** What one read(2) may do; an exhausted list, or no data at all, is end of file. Data longer than the
      space offered is handed out in several reads. */
  datatype ReadEvent = Data(bytes: string) | Interrupted | Failed(reason: string)

  predicate AtEnd(incoming: seq<ReadEvent>) {
    incoming == [] || incoming[0].Failed? || incoming[0] == Data("")
  }

  /** The bytes still to come, up to end of file or failure. */
  function Stream(incoming: seq<ReadEvent>): string {
    if AtEnd(incoming) then ""
    else (if incoming[0].Data? then incoming[0].bytes else "") + Stream(incoming[1..])
  }

  datatype Received = Line(line: string) | TooLong | Ended

  /** Where the first newline is, |s| when there is none. */
  function NewlineAt(s: string): (i: nat)
    ensures i <= |s| && (i < |s| ==> s[i] == '\n')
    ensures forall k :: 0 <= k < i ==> s[k] != '\n'
  {
    if s == "" || s[0] == '\n' then 0 else 1 + NewlineAt(s[1..])
  }

  /** What a receive gives, as a function of the bytes alone: the first line if it fits the buffer. */
  function NextLine(s: string): Received {
    var i := NewlineAt(s);
    if i < |s| && i < MAX_LINE_BYTES then Line(s[..i])
    else if |s| >= MAX_LINE_BYTES then TooLong
    else Ended
  }

  /** What is left after taking the next line, if there is one. */
  function RestOf(s: string): string {
    var i := NewlineAt(s);
    if i < |s| && i < MAX_LINE_BYTES then s[i + 1..] else s
  }

  lemma NewlineUnique(s: string, i: nat)
    requires i <= |s| && (i < |s| ==> s[i] == '\n') && forall k :: 0 <= k < i ==> s[k] != '\n'
    ensures NewlineAt(s) == i
  {
  }

  class Transport {
    const buffer: array<char>
    var bufferLen: nat
    var incoming: seq<ReadEvent>

    ghost predicate Valid()
      reads this, buffer
    {
      buffer.Length == MAX_LINE_BYTES + 1 && bufferLen <= MAX_LINE_BYTES
    }

    /** Everything not yet handed to the decoder: the buffer, then what is still to be read. */
    ghost function Pending(): string
      reads this, buffer
      requires Valid()
    {
      buffer[..bufferLen] + Stream(incoming)
    }

    constructor (incoming: seq<ReadEvent>)
      ensures Valid() && Pending() == Stream(incoming) && fresh(buffer)
    {
      buffer := new char[MAX_LINE_BYTES + 1](_ => '\0');
      bufferLen := 0;
      this.incoming := incoming;
    }

    /** The index of the first newline in the buffer. */
    method FindNewline() returns (at: nat)
      requires Valid()
      ensures at == NewlineAt(buffer[..bufferLen])
    {
      at := 0;
      while at < bufferLen && buffer[at] != '\n'
        invariant at <= bufferLen && forall k :: 0 <= k < at ==> buffer[k] != '\n'
      {
        at := at + 1;
      }
      NewlineUnique(buffer[..bufferLen], at);
    }

    /** Cuts the line out and moves the remaining bytes to the front. */
    method TakeLine(at: nat) returns (line: string)
      requires Valid() && at < bufferLen && buffer[at] == '\n'
      modifies this`bufferLen, buffer
      ensures Valid() && line == old(buffer[..at])
      ensures buffer[..bufferLen] == old(buffer[at + 1..bufferLen])
    {
      line := buffer[..at];
      var remaining := bufferLen - at - 1;
      forall i | 0 <= i < remaining {
        buffer[i] := buffer[at + 1 + i];
      }
      bufferLen := remaining;
    }

    /** One read into the free part of the buffer; `ok` is false at end of file or on failure. */
    method Fill() returns (ok: bool)
      requires Valid() && bufferLen < MAX_LINE_BYTES
      modifies this`bufferLen, this`incoming, buffer
      ensures Valid() && Pending() == old(Pending())
      ensures buffer[..old(bufferLen)] == old(buffer[..bufferLen]) && bufferLen >= old(bufferLen)
      ensures ok ==> || |incoming| < old(|incoming|)
                     || (|incoming| == old(|incoming|) && |incoming| > 0 && bufferLen > old(bufferLen))
      ensures !ok ==> Stream(incoming) == "" && bufferLen == old(bufferLen)
    {
      if AtEnd(incoming) {
        return false;
      }
      if incoming[0].Interrupted? {
        incoming := incoming[1..];
        return true;
      }
      var bytes := incoming[0].bytes;
      var space := MAX_LINE_BYTES - bufferLen;
      var n := if |bytes| <= space then |bytes| else space;
      forall i | 0 <= i < n {
        buffer[bufferLen + i] := bytes[i];
      }
      ghost var before := old(buffer[..bufferLen]);
      bufferLen := bufferLen + n;
      assert buffer[..bufferLen] == before + bytes[..n];
      if n == |bytes| {
        incoming := incoming[1..];
      } else {
        incoming := [Data(bytes[n..])] + incoming[1..];
        assert incoming[1..] == old(incoming)[1..];
      }
      assert before + bytes[..n] + (bytes[n..] + Stream(old(incoming)[1..]))
             == before + (bytes + Stream(old(incoming)[1..]));
      return true;
    }

    /** Reads until a line is complete. The outcome is that of NextLine on the pending bytes: however they
        were cut into reads, and whatever is already buffered, makes no difference. */
    method ReceiveLine() returns (result: Received)
      requires Valid()
      modifies this`bufferLen, this`incoming, buffer
      ensures Valid() && result == NextLine(old(Pending()))
      ensures Pending() == RestOf(old(Pending()))
    {
      while true
        invariant Valid() && Pending() == old(Pending())
        decreases |incoming|, MAX_LINE_BYTES - bufferLen
      {
        var at := FindNewline();
        ReceiveByBuffer(buffer[..bufferLen], Stream(incoming), at);
        if at < bufferLen {
          var line := TakeLine(at);
          return Line(line);
        }
        if bufferLen >= MAX_LINE_BYTES {
          return TooLong;
        }
        var ok := Fill();
        if !ok {
          ReceiveByBuffer(buffer[..bufferLen], Stream(incoming), at);
          return Ended;
        }
      }
    }

    /** ts_transport_recv */
    method Receive() returns (result: Receipt)
      requires Valid()
      modifies this`bufferLen, this`incoming, buffer
      ensures Valid() && result == ReceiptOf(NextLine(old(Pending())))
      ensures Pending() == RestOf(old(Pending()))
    {
      var received := ReceiveLine();
      match received
      case Line(line) =>
        var decoded := DecodeMessageText(CString(line));
        result := Message(decoded);
      case TooLong => result := Oversized;
      case Ended => result := Closed;
    }
  }

  /** What a receive reports. */
  datatype Receipt = Message(decoded: Decoded<WireMessage>) | Oversized | Closed

  /** The C string that starts where the line starts. */
  function CString(s: string): string {
    if s == "" || s[0] == '\0' then "" else [s[0]] + CString(s[1..])
  }

  function ReceiptOf(r: Received): Receipt {
    match r
    case Line(line) => Message(DecodeMessage(CString(line)))
    case TooLong => Oversized
    case Ended => Closed
  }

  lemma NewlineInPrefix(a: string, b: string)
    ensures NewlineAt(a) < |a| ==> NewlineAt(a + b) == NewlineAt(a)
    ensures NewlineAt(a) == |a| ==> NewlineAt(a + b) >= |a|
  {
    assert forall k :: 0 <= k < |a| ==> (a + b)[k] == a[k];
    if NewlineAt(a) < |a| {
      NewlineUnique(a + b, NewlineAt(a));
    }
  }

  lemma ReceiveAt(s: string, at: nat)
    requires at == NewlineAt(s)
    ensures at < |s| && at < MAX_LINE_BYTES ==> NextLine(s) == Line(s[..at]) && RestOf(s) == s[at + 1..]
    ensures !(at < |s| && at < MAX_LINE_BYTES) ==>
              NextLine(s) == (if |s| >= MAX_LINE_BYTES then TooLong else Ended) && RestOf(s) == s
  {
  }

  /** What the buffered bytes alone decide about a receive. */
  lemma ReceiveByBuffer(buffered: string, rest: string, at: nat)
    requires |buffered| <= MAX_LINE_BYTES && at == NewlineAt(buffered)
    ensures var s := buffered + rest;
            && (at < |buffered| ==> NextLine(s) == Line(buffered[..at]) && RestOf(s) == buffered[at + 1..] + rest)
            && (at == |buffered| == MAX_LINE_BYTES ==> NextLine(s) == TooLong && RestOf(s) == s)
            && (at == |buffered| < MAX_LINE_BYTES && rest == "" ==> NextLine(s) == Ended && RestOf(s) == s)
  {
    NewlineInPrefix(buffered, rest);
    ReceiveAt(buffered + rest, NewlineAt(buffered + rest));
    if at < |buffered| {
      SliceBuffered(buffered, rest, at);
    } else if rest == "" {
      assert buffered + rest == buffered;
    }
  }

  lemma SliceBuffered(buffered: string, rest: string, at: nat)
    requires at < |buffered|
    ensures (buffered + rest)[..at] == buffered[..at] && (buffered + rest)[at + 1..] == buffered[at + 1..] + rest
  {
  }

  // ----- Sequences of lines -----

  /** A line that fits, with its newline, into the buffer. */
  predicate Fits(line: string) {
    |line| < MAX_LINE_BYTES && forall k :: 0 <= k < |line| ==> line[k] != '\n'
  }

  function JoinLines(lines: seq<string>): string {
    if lines == [] then "" else lines[0] + "\n" + JoinLines(lines[1..])
  }

  /** The bytes left after n receives. */
  function AfterReceives(s: string, n: nat): string {
    if n == 0 then s else AfterReceives(RestOf(s), n - 1)
  }

  lemma FirstLine(line: string, more: string)
    requires Fits(line)
    ensures NextLine(line + "\n" + more) == Line(line) && RestOf(line + "\n" + more) == more
  {
    var s := line + "\n" + more;
    assert s[|line|] == '\n' && forall k :: 0 <= k < |line| ==> s[k] == line[k];
    NewlineUnique(s, |line|);
  }

  /** Chunk invariance: for lines that fit, the n-th receive hands over the n-th line, and after all of
      them nothing is left over. */
  lemma {:induction false} LinesInOrder(lines: seq<string>, n: nat)
    requires n <= |lines| && forall k :: 0 <= k < |lines| ==> Fits(lines[k])
    ensures AfterReceives(JoinLines(lines), n) == JoinLines(lines[n..])
    ensures n < |lines| ==> NextLine(AfterReceives(JoinLines(lines), n)) == Line(lines[n])
    ensures n == |lines| ==> NextLine(AfterReceives(JoinLines(lines), n)) == Ended
  {
    if n == 0 {
      assert lines[0..] == lines;
      if lines != [] {
        FirstLine(lines[0], JoinLines(lines[1..]));
      }
    } else {
      FirstLine(lines[0], JoinLines(lines[1..]));
      LinesInOrder(lines[1..], n - 1);
      assert lines[1..][n - 1..] == lines[n..];
    }
  }

  /** The bytes of a whole conversation, as ts_transport_send writes them. */
  function SendAll(messages: seq<WireMessage>): string {
    if messages == [] then "" else EncodeMessage(messages[0]) + SendAll(messages[1..])
  }

  function Encoded(messages: seq<WireMessage>): seq<string> {
    seq(|messages|, i requires 0 <= i < |messages| => EncodeLine(messages[i]))
  }

  lemma {:induction false} SendAllIsLines(messages: seq<WireMessage>)
    ensures SendAll(messages) == JoinLines(Encoded(messages))
  {
    if messages != [] {
      SendAllIsLines(messages[1..]);
      assert Encoded(messages)[0] == EncodeLine(messages[0]) && Encoded(messages)[1..] == Encoded(messages[1..]);
    }
  }

  lemma {:induction false} CStringWhole(s: string)
    requires forall k :: 0 <= k < |s| ==> s[k] != '\0'
    ensures CString(s) == s
  {
    if s != "" {
      CStringWhole(s[1..]);
    }
  }

  /** A connection is a FIFO of messages: whatever the reads, the n-th receive yields the n-th message sent. */
  lemma MessagesInOrder(messages: seq<WireMessage>, n: nat)
    requires n < |messages|
    requires forall k :: 0 <= k < |messages| ==>
               WellFormed(messages[k]) && |EncodeMessage(messages[k])| <= MAX_LINE_BYTES
    ensures ReceiptOf(NextLine(AfterReceives(SendAll(messages), n)))
            == Message(Ok(messages[n].(reason := FirstReason(messages[n]))))
  {
    var lines := Encoded(messages);
    SendAllIsLines(messages);
    forall k | 0 <= k < |lines|
      ensures Fits(lines[k])
    {
      LineFits(messages[k]);
    }
    LinesInOrder(lines, n);
    LineFits(messages[n]);
    MessageRoundTrip(messages[n]);
  }

  lemma LineFits(m: WireMessage)
    requires |EncodeMessage(m)| <= MAX_LINE_BYTES
    ensures Fits(EncodeLine(m)) && CString(EncodeLine(m)) == EncodeLine(m)
  {
    OneLine(m);
    var line := EncodeLine(m);
    assert forall k :: 0 <= k < |line| ==> line[k] == EncodeMessage(m)[k];
    CStringWhole(line);
  }
}
