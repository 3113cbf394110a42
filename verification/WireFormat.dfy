/** The bytes between the programs, told without the printer: the members of a line in their order, how a string is
    escaped, which line the receiver takes, and what it says of a line it cannot read. */
module WireFormat {
  import opened Operations
  import opened Messages
  import opened Decimals
  import opened Utf8
  import opened Json
  import opened Protocol
  import opened Transports
  import opened Autosave

  // ----- The members of a line -----

  function Commas(members: seq<string>): string {
    if members == [] then "" else if |members| == 1 then members[0] else members[0] + "," + Commas(members[1..])
  }

  function Quoted(text: string): string {
    "\"" + Escape(text) + "\""
  }

  function Named(name: string, value: string): string {
    "\"" + name + "\":" + value
  }

  function Text(name: string, text: string): seq<string> {
    if text == "" then [] else [Named(name, Quoted(text))]
  }

  function Number(name: string, n: int): seq<string> {
    if n < 0 then [] else [Named(name, Decimal(n))]
  }

  function KindText(kind: OpKind): string {
    match kind
    case Insert => "insert"
    case Delete => "delete"
    case Noop => "noop"
    case Invalid => "invalid"
  }

  function Inserted(op: Operation): seq<string> {
    if op.kind == Insert then [Named("char", Quoted(op.ch))] else []
  }

  function EditMembers(op: Operation): seq<string> {
    [Named("kind", Quoted(KindText(op.kind)))]
    + ([Named("pos", Decimal(op.pos))] + (Inserted(op) + Text("reason", op.reason)))
  }

  function Edit(op: Operation): string {
    "{" + Commas(EditMembers(op)) + "}"
  }

  function Edits(name: string, op: Option<Operation>): seq<string> {
    if op == None then [] else [Named(name, Edit(op.value))]
  }

  function Body(name: string, content: Option<string>): seq<string> {
    if content == None then [] else [Named(name, Quoted(content.value))]
  }

  /** What a line has, in this order; empty strings and versions below 0 are not there. */
  function Members(m: WireMessage): seq<string> {
    Text("type", m.mtype) + (Text("client_id", m.clientId) + (Text("op_id", m.opId)
    + (Number("base_version", m.baseVersion) + (Number("server_version", m.serverVersion)
    + (Number("version", m.version) + (Number("history_start_version", m.historyStartVersion)
    + (Edits("op", m.op) + (Edits("original_op", m.originalOp)
    + (Text("message", m.message) + (Text("reason", m.reason) + Body("content", m.content)))))))))))
  }

  // ----- The printer prints them -----

  function Printed(f: Fields): seq<string> {
    match f
    case Nil => []
    case Cons(key, value, rest) => [Named(Name(key), PrintValue(value))] + Printed(rest)
  }

  lemma {:induction false} FieldsPrinted(f: Fields)
    ensures PrintFields(f) == Commas(Printed(f))
    ensures f == Nil <==> Printed(f) == []
  {
    if f.Cons? {
      FieldsPrinted(f.rest);
      assert Printed(f)[1..] == Printed(f.rest);
      assert Quote(Name(f.key)) + ":" == "\"" + Name(f.key) + "\":";
    }
  }

  lemma StringPrinted(key: Key, text: string, rest: Fields)
    ensures Printed(AddString(key, text, rest)) == Text(Name(key), text) + Printed(rest)
  {
  }

  lemma IntPrinted(key: Key, n: int, rest: Fields)
    ensures Printed(AddInt(key, n, rest)) == Number(Name(key), n) + Printed(rest)
  {
  }

  lemma InsertedPrinted(op: Operation)
    ensures var last := AddString(Reason, op.reason, Nil);
            Printed(if op.kind == Insert then Cons(Char, Str(op.ch), last) else last)
            == Inserted(op) + Text("reason", op.reason)
  {
    var last := AddString(Reason, op.reason, Nil);
    StringPrinted(Reason, op.reason, Nil);
    assert Printed(last) == Text("reason", op.reason) + Printed(Nil);
  }

  lemma EditFieldsPrinted(op: Operation)
    ensures Printed(OperationFields(op)) == EditMembers(op)
  {
    InsertedPrinted(op);
  }

  lemma EditPrinted(op: Operation)
    ensures PrintValue(Obj(OperationFields(op))) == Edit(op)
  {
    EditFieldsPrinted(op);
    FieldsPrinted(OperationFields(op));
  }

  lemma OperationPrinted(key: Key, op: Option<Operation>, rest: Fields)
    ensures Printed(AddOperation(key, op, rest)) == Edits(Name(key), op) + Printed(rest)
  {
    if op.Some? {
      EditPrinted(op.value);
    }
  }

  lemma TextsPrinted(m: WireMessage)
    ensures Printed(TextFields(m))
            == Text("message", m.message) + (Text("reason", m.reason) + Body("content", m.content))
  {
    var content := ContentFields(m);
    assert Printed(content) == Body("content", m.content);
    StringPrinted(Reason, m.reason, content);
    StringPrinted(Key.Message, m.message, AddString(Reason, m.reason, content));
  }

  lemma OperationsPrinted(m: WireMessage)
    ensures Printed(OpFields(m)) == Edits("op", m.op) + (Edits("original_op", m.originalOp) + Printed(TextFields(m)))
  {
    OperationPrinted(OriginalOp, m.originalOp, TextFields(m));
    OperationPrinted(Key.Op, m.op, AddOperation(OriginalOp, m.originalOp, TextFields(m)));
  }

  lemma VersionsPrinted(m: WireMessage)
    ensures Printed(VersionFields(m))
            == Number("base_version", m.baseVersion) + (Number("server_version", m.serverVersion)
               + (Number("version", m.version) + (Number("history_start_version", m.historyStartVersion)
               + Printed(OpFields(m)))))
  {
    var start := AddInt(HistoryStartVersion, m.historyStartVersion, OpFields(m));
    var version := AddInt(Version, m.version, start);
    IntPrinted(HistoryStartVersion, m.historyStartVersion, OpFields(m));
    IntPrinted(Version, m.version, start);
    IntPrinted(ServerVersion, m.serverVersion, version);
    IntPrinted(BaseVersion, m.baseVersion, AddInt(ServerVersion, m.serverVersion, version));
  }

  /** Every line, whatever the message: its members in their order, between braces, and a newline. */
  lemma LineIsMembers(m: WireMessage)
    ensures EncodeMessage(m) == "{" + Commas(Members(m)) + "}" + "\n"
  {
    var ids := AddString(Key.OpId, m.opId, VersionFields(m));
    StringPrinted(Key.OpId, m.opId, VersionFields(m));
    StringPrinted(ClientId, m.clientId, ids);
    StringPrinted(Type, m.mtype, AddString(ClientId, m.clientId, ids));
    VersionsPrinted(m);
    OperationsPrinted(m);
    TextsPrinted(m);
    FieldsPrinted(MessageFields(m));
    assert Printed(MessageFields(m)) == Members(m);
  }

  // ----- Strings -----

  predicate IsLowerHex(c: char) {
    '0' <= c <= '9' || 'a' <= c <= 'f'
  }

  /** Five characters have an escape of their own, the other control characters go by number, in two lower-case
      hexadecimal digits behind two zeros, and all else stands for itself. */
  lemma EscapesExactly(c: char)
    ensures c == '\\' ==> EscapeChar(c) == ['\\', '\\']
    ensures c == '"' ==> EscapeChar(c) == ['\\', '"']
    ensures c == '\n' ==> EscapeChar(c) == ['\\', 'n']
    ensures c == '\r' ==> EscapeChar(c) == ['\\', 'r']
    ensures c == '\t' ==> EscapeChar(c) == ['\\', 't']
    ensures c as int < 0x20 && c != '\n' && c != '\r' && c != '\t' ==>
              var e := EscapeChar(c);
              && |e| == 6 && e[..4] == ['\\', 'u', '0', '0'] && IsLowerHex(e[4]) && IsLowerHex(e[5])
              && HexValue(e[4]) * 16 + HexValue(e[5]) == c as int
    ensures c as int >= 0x20 && c != '\\' && c != '"' ==> EscapeChar(c) == [c]
  {
  }

  /** A string that is too long for its field is cut to what fits with a terminator, and to no less. */
  lemma CutToFit(json: string, key: Key, size: nat)
    requires size > 0
    ensures var whole, got := FindKey(json, Name(key)), GetString(json, key, size);
            && (got.Some? <==> whole.Some? && ParseString(whole.value).Some?)
            && (got.Some? ==>
                  var text := ParseString(whole.value).value;
                  got.value <= text && |got.value| < size && (got.value == text || |got.value| == size - 1))
  {
  }

  // ----- Numbers -----

  /** A long that does not fit an int keeps its low 32 bits. */
  lemma IntKeepsLowBits(n: int)
    ensures -INT_MAX - 1 <= ToInt(n) <= INT_MAX && (ToInt(n) - n) % 0x1_0000_0000 == 0
  {
  }

  /** A numeral may carry a sign, and is read exactly when it fits a long. */
  lemma SignedRead(n: nat, minus: bool, tail: string)
    requires Ends(tail)
    ensures var r := StrToL((if minus then "-" else "+") + Decimal(n) + tail);
            && (r.Some? <==> n <= if minus then LONG_MAX + 1 else LONG_MAX)
            && (r.Some? ==> r.value == if minus then 0 - n else n)
  {
    var s := (if minus then "-" else "+") + Decimal(n) + tail;
    DecimalRoundTrip(n);
    LeadingDigitsExact(Decimal(n), tail);
    assert s[1..] == Decimal(n) + tail && SkipWs(s) == s;
  }

  // ----- Lines that cannot be read -----

  /** What is wrong with the text of an operation, if anything. */
  function Complaint(json: string): Option<string> {
    var kind := GetString(json, Kind, MAX_TYPE);
    if kind == None then Some("operation kind is required")
    else if kind.value != "insert" && kind.value != "delete" && kind.value != "noop" then
      Some("unsupported operation kind: " + kind.value)
    else if kind.value == "insert"
            && (GetString(json, Char, MAX_UTF8_CHAR) == None
                || CountLeads(GetString(json, Char, MAX_UTF8_CHAR).value) != 1) then
      Some("insert operation requires one UTF-8 character")
    else None
  }

  /** An operation is read exactly when nothing is wrong with it; a position that is not there, or below 0, is 0. */
  lemma OperationReadExactly(json: string)
    ensures var d, complaint := ParseOperation(json), Complaint(json);
            && (d.Err? <==> complaint.Some?) && (d.Err? ==> Some(d.error) == complaint)
            && (d.Ok? ==>
                  && Some(KindText(d.value.kind)) == GetString(json, Kind, MAX_TYPE)
                  && d.value.pos == (var pos := GetInt(json, Pos); if pos.Some? && pos.value > 0 then pos.value else 0)
                  && (d.value.kind == Insert ==> Some(d.value.ch) == GetString(json, Char, MAX_UTF8_CHAR))
                  && (d.value.kind != Insert ==> d.value.ch == ""))
  {
    assert |"insert"| == |"delete"| == 6 && |"noop"| == 4 && "insert"[0] != "delete"[0];
  }

  /** A line is read exactly when it is an object with a type, and with nothing wrong with the operation, if it has
      one; an original operation that is wrong is passed over. */
  lemma LineReadExactly(line: string)
    ensures var json, d := SkipWs(line), DecodeMessage(line);
            if json == "" || json[0] != '{' then d == Err("protocol message must be a JSON object")
            else if GetString(json, Type, MAX_TYPE) == None then d == Err("message type is required")
            else
              var op, original := GetObject(json, Key.Op), GetObject(json, OriginalOp);
              if op.Some? && Complaint(op.value).Some? then d == Err(Complaint(op.value).value)
              else
                && d.Ok? && Some(d.value.mtype) == GetString(json, Type, MAX_TYPE)
                && (d.value.op.Some? <==> op.Some?)
                && (d.value.originalOp.Some? <==> original.Some? && Complaint(original.value) == None)
  {
    var json := SkipWs(line);
    var op, original := GetObject(json, Key.Op), GetObject(json, OriginalOp);
    if op.Some? {
      OperationReadExactly(op.value);
    }
    if original.Some? {
      OperationReadExactly(original.value);
    }
  }

  // ----- Cutting lines -----

  /** The receiver takes the bytes before the first newline, when that is among the first MAX_LINE_BYTES; without
      one among them it complains of the length as soon as so many have come, and otherwise it waits for more. */
  lemma LineCutExactly(s: string, line: string, rest: string)
    ensures NextLine(s) == Line(line) && RestOf(s) == rest <==>
              s == line + "\n" + rest && '\n' !in line && |line| < MAX_LINE_BYTES
    ensures NextLine(s) == TooLong <==> |s| >= MAX_LINE_BYTES && '\n' !in s[..MAX_LINE_BYTES]
    ensures NextLine(s) == Received.Ended <==> |s| < MAX_LINE_BYTES && '\n' !in s
    ensures !NextLine(s).Line? ==> RestOf(s) == s
  {
    var i := NewlineAt(s);
    if i < |s| {
      assert s == s[..i] + "\n" + s[i + 1..] && s[i] in s;
      if |s| >= MAX_LINE_BYTES && i < MAX_LINE_BYTES {
        assert s[..MAX_LINE_BYTES][i] == '\n';
      }
    }
    if s == line + "\n" + rest && '\n' !in line {
      NewlineUnique(s, |line|);
      assert s[..|line|] == line && s[|line| + 1..] == rest;
    }
  }

  /** A line ends at its first NUL, if it has one. */
  lemma {:induction false} CStringExactly(s: string)
    ensures var c := CString(s); c <= s && '\0' !in c && (|c| < |s| ==> s[|c|] == '\0')
  {
    if s != "" && s[0] != '\0' {
      CStringExactly(s[1..]);
    }
  }

  /** What a receive reports: the line it has cut, decoded; or that there is none, and why. */
  lemma ReceiptExactly(s: string)
    ensures ReceiptOf(NextLine(s)).Oversized? <==> |s| >= MAX_LINE_BYTES && '\n' !in s[..MAX_LINE_BYTES]
    ensures ReceiptOf(NextLine(s)).Closed? <==> |s| < MAX_LINE_BYTES && '\n' !in s
    ensures ReceiptOf(NextLine(s)).Message? ==>
              exists line, rest :: s == line + "\n" + rest && '\n' !in line
                                   && ReceiptOf(NextLine(s)).decoded == DecodeMessage(CString(line))
  {
    var i := NewlineAt(s);
    LineCutExactly(s, s[..i], RestOf(s));
    if NextLine(s).Line? {
      assert s == s[..i] + "\n" + s[i + 1..];
    }
  }

  // ----- Events on the save pipe -----

  /** A header of name, version and length, then the payload as it is. */
  lemma FramesLookLike(version: nat, payload: string)
    ensures var numbers := " " + (Decimal(version) + (" " + Decimal(|payload|)));
            && Frame(Snapshot(version, payload)) == "SNAPSHOT" + numbers + "\n" + payload
            && Frame(SaveNow(version, payload)) == "SAVE_NOW" + numbers + "\n" + payload
            && Frame(Log(payload)) == "LOG" + (" " + ("0" + (" " + Decimal(|payload|)))) + "\n" + payload
    ensures Frame(Stop) == "STOP\n"
  {
    assert Decimal(0) == "0";
  }
}
