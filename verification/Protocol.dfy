/** Whole protocol lines: ts_encode_message, ts_decode_message, and what survives the trip. */
module Protocol {
  import opened Operations
  import opened Messages
  import opened Json
  import opened Utf8

  /** TsMessage. Strings are C strings of bytes; -1 is an absent version. */
  datatype WireMessage = WireMessage(
    mtype: string, clientId: string, opId: string, message: string, reason: string,
    baseVersion: int, serverVersion: int, version: int, historyStartVersion: int,
    op: Option<Operation>, originalOp: Option<Operation>, content: Option<string>)

  datatype Decoded<T> = Ok(value: T) | Err(error: string)

  const MAX_TYPE := 32
  const MAX_CLIENT_ID := 64
  const MAX_OP_ID := 64
  const MAX_STATUS := 160
  const MAX_REASON := 160
  const MAX_UTF8_CHAR := 8

  function KindName(kind: OpKind): string {
    match kind
    case Insert => "insert"
    case Delete => "delete"
    case Noop => "noop"
    case Invalid => "invalid"
  }

  function KindFromName(name: string): OpKind {
    if name == "insert" then Insert
    else if name == "delete" then Delete
    else if name == "noop" then Noop
    else Invalid
  }

  // ----- Encoding -----

  /** Empty strings are not encoded. */
  function AddString(key: Key, text: string, rest: Fields): Fields {
    if text == "" then rest else Cons(key, Str(text), rest)
  }

  /** Negative versions are not encoded. */
  function AddInt(key: Key, n: int, rest: Fields): Fields {
    if n < 0 then rest else Cons(key, Num(n), rest)
  }

  function OperationFields(op: Operation): Fields {
    Cons(Kind, Str(KindName(op.kind)),
      Cons(Pos, Num(op.pos),
        if op.kind == Insert then Cons(Char, Str(op.ch), AddString(Reason, op.reason, Nil))
        else AddString(Reason, op.reason, Nil)))
  }

  function AddOperation(key: Key, op: Option<Operation>, rest: Fields): Fields {
    if op == None then rest else Cons(key, Obj(OperationFields(op.value)), rest)
  }

  function ContentFields(m: WireMessage): Fields {
    if m.content == None then Nil else Cons(Content, Str(m.content.value), Nil)
  }

  function TextFields(m: WireMessage): Fields {
    AddString(Message, m.message, AddString(Reason, m.reason, ContentFields(m)))
  }

  function OpFields(m: WireMessage): Fields {
    AddOperation(Key.Op, m.op, AddOperation(OriginalOp, m.originalOp, TextFields(m)))
  }

  function VersionFields(m: WireMessage): Fields {
    AddInt(BaseVersion, m.baseVersion, AddInt(ServerVersion, m.serverVersion,
      AddInt(Version, m.version, AddInt(HistoryStartVersion, m.historyStartVersion, OpFields(m)))))
  }

  function MessageFields(m: WireMessage): Fields {
    AddString(Type, m.mtype, AddString(ClientId, m.clientId, AddString(Key.OpId, m.opId, VersionFields(m))))
  }

  /** The line without its newline. */
  function EncodeLine(m: WireMessage): string {
    PrintValue(Obj(MessageFields(m)))
  }

  function EncodeMessage(m: WireMessage): string {
    EncodeLine(m) + "\n"
  }

  // ----- Decoding -----

  /** snprintf into a buffer of `size` bytes. */
  function Truncate(s: string, size: nat): string
    requires size > 0
  {
    s[..Min(|s|, size - 1)]
  }

  function GetString(json: string, key: Key, size: nat): Option<string>
    requires size > 0
  {
    var value := FindKey(json, Name(key));
    if value == None then None
    else
      var parsed := ParseString(value.value);
      if parsed == None then None else Some(Truncate(parsed.value, size))
  }

  function GetStringOr(json: string, key: Key, size: nat, default: string): string
    requires size > 0
  {
    var s := GetString(json, key, size);
    if s == None then default else s.value
  }

  function GetContent(json: string): Option<string> {
    var value := FindKey(json, Name(Content));
    if value == None then None else ParseString(value.value)
  }

  function GetInt(json: string, key: Key): Option<int> {
    var value := FindKey(json, Name(key));
    var parsed := if value == None then None else StrToL(value.value);
    if parsed == None then None else Some(ToInt(parsed.value))
  }

  function GetIntOr(json: string, key: Key, default: int): int {
    var n := GetInt(json, key);
    if n == None then default else n.value
  }

  function GetObject(json: string, key: Key): Option<string> {
    var value := FindKey(json, Name(key));
    if value == None || value.value == "" || value.value[0] != '{' then None
    else
      var length := ObjectLength(value.value, OUTSIDE);
      if length == None then None else Some(value.value[..Min(|value.value|, length.value)])
  }

  function ParseOperation(json: string): Decoded<Operation> {
    var name := GetString(json, Kind, MAX_TYPE);
    if name == None then Err("operation kind is required")
    else
      var kind := KindFromName(name.value);
      if kind == Invalid then Err("unsupported operation kind: " + name.value)
      else
        var pos := GetIntOr(json, Pos, 0);
        var ch := if kind == Insert then GetStringOr(json, Char, MAX_UTF8_CHAR, "") else "";
        if kind == Insert && (GetString(json, Char, MAX_UTF8_CHAR) == None || CountLeads(ch) != 1) then
          Err("insert operation requires one UTF-8 character")
        else
          Ok(Operation(kind, if pos > 0 then pos else 0, ch, GetStringOr(json, Reason, MAX_REASON, "")))
  }

  function DecodeObject(json: string): Decoded<WireMessage> {
    var mtype := GetString(json, Type, MAX_TYPE);
    if mtype == None then Err("message type is required")
    else
      var opText := GetObject(json, Key.Op);
      var op := if opText == None then Ok(None) else OptionOp(ParseOperation(opText.value));
      if op.Err? then Err(op.error) else Ok(DecodeFields(json, mtype.value, op.value))
  }

  function DecodeMessage(line: string): Decoded<WireMessage> {
    var json := SkipWs(line);
    if json == "" || json[0] != '{' then Err("protocol message must be a JSON object") else DecodeObject(json)
  }

  function DecodeFields(json: string, mtype: string, op: Option<Operation>): WireMessage {
    WireMessage(
      mtype,
      GetStringOr(json, ClientId, MAX_CLIENT_ID, ""),
      GetStringOr(json, Key.OpId, MAX_OP_ID, ""),
      GetStringOr(json, Message, MAX_STATUS, ""),
      GetStringOr(json, Reason, MAX_REASON, ""),
      GetIntOr(json, BaseVersion, -1),
      GetIntOr(json, ServerVersion, -1),
      GetIntOr(json, Version, -1),
      GetIntOr(json, HistoryStartVersion, -1),
      op,
      OriginalOf(GetObject(json, OriginalOp)),
      GetContent(json))
  }

  function OptionOp(d: Decoded<Operation>): Decoded<Option<Operation>> {
    if d.Ok? then Ok(Some(d.value)) else Err(d.error)
  }

  /** An original operation that does not parse is dropped silently. */
  function OriginalOf(text: Option<string>): Option<Operation> {
    if text == None then None
    else
      var d := ParseOperation(text.value);
      if d.Ok? then Some(d.value) else None
  }

  // ----- Messages that fit the fixed-size fields -----

  predicate FitsIn(s: string, size: nat) {
    |s| < size && NulFree(s)
  }

  predicate WellFormedOp(op: Operation) {
    && op.kind != Invalid && op.pos <= INT_MAX
    && (if op.kind == Insert then FitsIn(op.ch, MAX_UTF8_CHAR) && CountLeads(op.ch) == 1 else op.ch == "")
    && FitsIn(op.reason, MAX_REASON)
  }

  predicate WellFormed(m: WireMessage) {
    && m.mtype != "" && FitsIn(m.mtype, MAX_TYPE)
    && FitsIn(m.clientId, MAX_CLIENT_ID) && FitsIn(m.opId, MAX_OP_ID)
    && FitsIn(m.message, MAX_STATUS) && FitsIn(m.reason, MAX_REASON)
    && -1 <= m.baseVersion <= INT_MAX && -1 <= m.serverVersion <= INT_MAX
    && -1 <= m.version <= INT_MAX && -1 <= m.historyStartVersion <= INT_MAX
    && (m.op.Some? ==> WellFormedOp(m.op.value))
    && (m.originalOp.Some? ==> WellFormedOp(m.originalOp.value))
    && (m.content.Some? ==> NulFree(m.content.value))
  }

  /** The reason the reader comes upon first: an operation's own reason hides the message's. */
  function FirstReason(m: WireMessage): string {
    if m.op.Some? && m.op.value.reason != "" then m.op.value.reason
    else if m.originalOp.Some? && m.originalOp.value.reason != "" then m.originalOp.value.reason
    else m.reason
  }

  // ----- What is found under each key -----

  function StrOpt(text: string): Option<Value> {
    if text == "" then None else Some(Str(text))
  }

  function IntOpt(n: int): Option<Value> {
    if n < 0 then None else Some(Num(n))
  }

  function ObjOpt(op: Option<Operation>): Option<Value> {
    if op == None then None else Some(Obj(OperationFields(op.value)))
  }

  predicate Nested(key: Key) {
    key == Kind || key == Pos || key == Char || key == Reason
  }

  lemma LookupOperation(op: Operation, key: Key)
    ensures Lookup(OperationFields(op), key) ==
            if key == Kind then Some(Str(KindName(op.kind)))
            else if key == Pos then Some(Num(op.pos))
            else if key == Char && op.kind == Insert then Some(Str(op.ch))
            else if key == Reason then StrOpt(op.reason)
            else None
  {
    var last := AddString(Reason, op.reason, Nil);
    assert Lookup(last, key) == if key == Reason then StrOpt(op.reason) else None;
    var more := if op.kind == Insert then Cons(Char, Str(op.ch), last) else last;
    assert Lookup(more, key) == if key == Char && op.kind == Insert then Some(Str(op.ch)) else Lookup(last, key);
    assert Lookup(Cons(Pos, Num(op.pos), more), key) == if key == Pos then Some(Num(op.pos)) else Lookup(more, key);
  }

  lemma LookupAddOperation(at: Key, op: Option<Operation>, rest: Fields, key: Key)
    requires !Nested(key)
    ensures Lookup(AddOperation(at, op, rest), key) == if key == at && op.Some? then ObjOpt(op) else Lookup(rest, key)
  {
    if op.Some? {
      LookupOperation(op.value, key);
    }
  }

  lemma LookupReasonInOperation(at: Key, op: Option<Operation>, rest: Fields)
    requires at != Reason
    ensures Lookup(AddOperation(at, op, rest), Reason) ==
            if op.Some? && op.value.reason != "" then Some(Str(op.value.reason)) else Lookup(rest, Reason)
  {
    if op.Some? {
      LookupOperation(op.value, Reason);
    }
  }

  lemma LookupText(m: WireMessage, key: Key)
    ensures Lookup(TextFields(m), key) ==
            if key == Message then StrOpt(m.message)
            else if key == Reason then StrOpt(m.reason)
            else if key == Content && m.content.Some? then Some(Str(m.content.value))
            else None
  {
    var last := ContentFields(m);
    var middle := AddString(Reason, m.reason, last);
    assert Lookup(last, key) == if key == Content && m.content.Some? then Some(Str(m.content.value)) else None;
    assert Lookup(middle, key) == if key == Reason && m.reason != "" then Some(Str(m.reason)) else Lookup(last, key);
  }

  lemma LookupOp(m: WireMessage, key: Key)
    requires !Nested(key)
    ensures Lookup(OpFields(m), key) ==
            if key == Key.Op then ObjOpt(m.op)
            else if key == OriginalOp then ObjOpt(m.originalOp)
            else Lookup(TextFields(m), key)
  {
    LookupText(m, key);
    LookupAddOperation(OriginalOp, m.originalOp, TextFields(m), key);
    LookupAddOperation(Key.Op, m.op, AddOperation(OriginalOp, m.originalOp, TextFields(m)), key);
  }

  lemma LookupReason(m: WireMessage)
    ensures Lookup(OpFields(m), Reason) == StrOpt(FirstReason(m))
  {
    LookupText(m, Reason);
    LookupReasonInOperation(OriginalOp, m.originalOp, TextFields(m));
    LookupReasonInOperation(Key.Op, m.op, AddOperation(OriginalOp, m.originalOp, TextFields(m)));
  }

  lemma LookupVersion(m: WireMessage, key: Key)
    ensures Lookup(VersionFields(m), key) ==
            if key == BaseVersion && m.baseVersion >= 0 then Some(Num(m.baseVersion))
            else if key == ServerVersion && m.serverVersion >= 0 then Some(Num(m.serverVersion))
            else if key == Version && m.version >= 0 then Some(Num(m.version))
            else if key == HistoryStartVersion && m.historyStartVersion >= 0 then Some(Num(m.historyStartVersion))
            else Lookup(OpFields(m), key)
  {
    var four := AddInt(HistoryStartVersion, m.historyStartVersion, OpFields(m));
    var three := AddInt(Version, m.version, four);
    var two := AddInt(ServerVersion, m.serverVersion, three);
    assert Lookup(four, key) == if key == HistoryStartVersion && m.historyStartVersion >= 0
                                then Some(Num(m.historyStartVersion)) else Lookup(OpFields(m), key);
    assert Lookup(three, key) == if key == Version && m.version >= 0 then Some(Num(m.version)) else Lookup(four, key);
    assert Lookup(two, key) == if key == ServerVersion && m.serverVersion >= 0
                               then Some(Num(m.serverVersion)) else Lookup(three, key);
  }

  lemma LookupMessage(m: WireMessage, key: Key)
    ensures Lookup(MessageFields(m), key) ==
            if key == Type && m.mtype != "" then Some(Str(m.mtype))
            else if key == ClientId && m.clientId != "" then Some(Str(m.clientId))
            else if key == Key.OpId && m.opId != "" then Some(Str(m.opId))
            else Lookup(VersionFields(m), key)
  {
    var three := AddString(Key.OpId, m.opId, VersionFields(m));
    var two := AddString(ClientId, m.clientId, three);
    assert Lookup(three, key)
           == if key == Key.OpId && m.opId != "" then Some(Str(m.opId)) else Lookup(VersionFields(m), key);
    assert Lookup(two, key)
           == if key == ClientId && m.clientId != "" then Some(Str(m.clientId)) else Lookup(three, key);
  }

  /** The value the reader finds in an encoded message under each key. */
  function Stored(m: WireMessage, key: Key): Option<Value> {
    match key
    case Type => StrOpt(m.mtype)
    case ClientId => StrOpt(m.clientId)
    case OpId => StrOpt(m.opId)
    case BaseVersion => IntOpt(m.baseVersion)
    case ServerVersion => IntOpt(m.serverVersion)
    case Version => IntOpt(m.version)
    case HistoryStartVersion => IntOpt(m.historyStartVersion)
    case Op => ObjOpt(m.op)
    case OriginalOp => ObjOpt(m.originalOp)
    case Message => StrOpt(m.message)
    case Reason => StrOpt(FirstReason(m))
    case Content => if m.content == None then None else Some(Str(m.content.value))
    case Kind => Lookup(MessageFields(m), Kind)
    case Pos => Lookup(MessageFields(m), Pos)
    case Char => Lookup(MessageFields(m), Char)
  }

  lemma LookupStored(m: WireMessage, key: Key)
    ensures Lookup(MessageFields(m), key) == Stored(m, key)
  {
    LookupMessage(m, key);
    LookupVersion(m, key);
    if key == Reason {
      LookupReason(m);
    } else if !Nested(key) {
      LookupOp(m, key);
      LookupText(m, key);
    }
  }

  // ----- Reading one field of a printed object -----

  lemma FindKeyNothing(key: string)
    ensures FindKey("}", key) == None
  {
    assert "}"[1..] == "";
    SkipOneChar("}", key);
  }

  /** FindKey in a printed object goes exactly where Lookup goes. */
  lemma FindPrinted(f: Fields, key: Key)
    ensures Found(FindKey(PrintValue(Obj(f)), Name(key)), Lookup(f, key), None)
  {
    var s := PrintValue(Obj(f));
    NamesAreNames(key);
    FindInFields(f, "}", key);
    FindKeyNothing(Name(key));
    assert s == "{" + (PrintFields(f) + "}") && s[1..] == PrintFields(f) + "}";
    SkipOneChar(s, Name(key));
  }

  lemma ReadString(f: Fields, key: Key, size: nat)
    requires size > 0
    requires Lookup(f, key) == None || (Lookup(f, key).value.Str? && FitsIn(Lookup(f, key).value.text, size))
    ensures GetString(PrintValue(Obj(f)), key, size)
            == if Lookup(f, key) == None then None else Some(Lookup(f, key).value.text)
  {
    FindPrinted(f, key);
    var value := FindKey(PrintValue(Obj(f)), Name(key));
    if Lookup(f, key).Some? {
      var text := Lookup(f, key).value.text;
      QuotedRoundTrip(text, value.value);
      assert Truncate(text, size) == text;
    }
  }

  lemma ReadInt(f: Fields, key: Key)
    requires Lookup(f, key) == None || Lookup(f, key).value.Num?
    ensures Lookup(f, key) == None ==> GetInt(PrintValue(Obj(f)), key) == None
    ensures Lookup(f, key).Some? ==>
              var n := Lookup(f, key).value.n;
              GetInt(PrintValue(Obj(f)), key) == if n <= LONG_MAX then Some(ToInt(n)) else None
  {
    FindPrinted(f, key);
    var value := FindKey(PrintValue(Obj(f)), Name(key));
    if Lookup(f, key).Some? {
      NumberRoundTrip(Lookup(f, key).value.n, value.value);
    }
  }

  lemma ReadContent(f: Fields)
    requires Lookup(f, Content) == None || (Lookup(f, Content).value.Str? && NulFree(Lookup(f, Content).value.text))
    ensures GetContent(PrintValue(Obj(f)))
            == if Lookup(f, Content) == None then None else Some(Lookup(f, Content).value.text)
  {
    FindPrinted(f, Content);
    var value := FindKey(PrintValue(Obj(f)), Name(Content));
    if Lookup(f, Content).Some? {
      QuotedRoundTrip(Lookup(f, Content).value.text, value.value);
    }
  }

  lemma ReadObject(f: Fields, key: Key)
    requires Lookup(f, key) == None || Lookup(f, key).value.Obj?
    ensures GetObject(PrintValue(Obj(f)), key)
            == if Lookup(f, key) == None then None else Some(PrintValue(Lookup(f, key).value))
  {
    FindPrinted(f, key);
    var value := FindKey(PrintValue(Obj(f)), Name(key));
    if Lookup(f, key).Some? {
      var printed := PrintValue(Lookup(f, key).value);
      ObjectCutExactly(Lookup(f, key).value.fields, value.value);
      assert value.value[..|printed|] == printed && printed[0] == '{';
    }
  }

  // ----- Round trips -----

  lemma KindRoundTrip(kind: OpKind)
    ensures KindFromName(KindName(kind)) == kind
    ensures FitsIn(KindName(kind), MAX_TYPE)
  {
    assert |"insert"| == 6 && |"delete"| == 6 && "insert"[0] != "delete"[0] && |"noop"| == 4 && |"invalid"| == 7;
  }

  /** An operation that fits its fields survives, exactly when its position fits an int. */
  lemma OperationRoundTrip(op: Operation)
    requires WellFormedOp(op.(pos := 0))
    ensures ParseOperation(PrintValue(Obj(OperationFields(op)))) == Ok(op) <==> WellFormedOp(op)
  {
    var f := OperationFields(op);
    LookupOperation(op, Kind);
    LookupOperation(op, Pos);
    LookupOperation(op, Char);
    LookupOperation(op, Reason);
    KindRoundTrip(op.kind);
    ReadString(f, Kind, MAX_TYPE);
    ReadInt(f, Pos);
    ReadString(f, Reason, MAX_REASON);
    ReadString(f, Char, MAX_UTF8_CHAR);
  }

  lemma SomeOperationRoundTrip(m: WireMessage, key: Key, op: Option<Operation>)
    requires op.Some? ==> WellFormedOp(op.value)
    requires Lookup(MessageFields(m), key) == ObjOpt(op)
    ensures var text := GetObject(EncodeLine(m), key);
            && (if text == None then Ok(None) else OptionOp(ParseOperation(text.value))) == Ok(op)
            && OriginalOf(text) == op
  {
    ReadObject(MessageFields(m), key);
    if op.Some? {
      OperationRoundTrip(op.value);
    }
  }

  lemma StringFieldsRoundTrip(m: WireMessage)
    requires WellFormed(m)
    ensures GetString(EncodeLine(m), Type, MAX_TYPE) == Some(m.mtype)
    ensures GetStringOr(EncodeLine(m), ClientId, MAX_CLIENT_ID, "") == m.clientId
    ensures GetStringOr(EncodeLine(m), Key.OpId, MAX_OP_ID, "") == m.opId
    ensures GetStringOr(EncodeLine(m), Message, MAX_STATUS, "") == m.message
    ensures GetStringOr(EncodeLine(m), Reason, MAX_REASON, "") == FirstReason(m)
    ensures GetContent(EncodeLine(m)) == m.content
  {
    var f := MessageFields(m);
    LookupStored(m, Type);
    LookupStored(m, ClientId);
    LookupStored(m, Key.OpId);
    LookupStored(m, Message);
    LookupStored(m, Reason);
    LookupStored(m, Content);
    ReadString(f, Type, MAX_TYPE);
    ReadString(f, ClientId, MAX_CLIENT_ID);
    ReadString(f, Key.OpId, MAX_OP_ID);
    ReadString(f, Message, MAX_STATUS);
    ReadString(f, Reason, MAX_REASON);
    ReadContent(f);
  }

  lemma IntFieldsRoundTrip(m: WireMessage)
    requires WellFormed(m)
    ensures GetIntOr(EncodeLine(m), BaseVersion, -1) == m.baseVersion
    ensures GetIntOr(EncodeLine(m), ServerVersion, -1) == m.serverVersion
    ensures GetIntOr(EncodeLine(m), Version, -1) == m.version
    ensures GetIntOr(EncodeLine(m), HistoryStartVersion, -1) == m.historyStartVersion
  {
    var f := MessageFields(m);
    LookupStored(m, BaseVersion);
    LookupStored(m, ServerVersion);
    LookupStored(m, Version);
    LookupStored(m, HistoryStartVersion);
    ReadInt(f, BaseVersion);
    ReadInt(f, ServerVersion);
    ReadInt(f, Version);
    ReadInt(f, HistoryStartVersion);
  }

  lemma FieldsRoundTrip(m: WireMessage)
    requires WellFormed(m)
    ensures DecodeFields(EncodeLine(m), m.mtype, m.op) == m.(reason := FirstReason(m))
  {
    StringFieldsRoundTrip(m);
    IntFieldsRoundTrip(m);
    LookupStored(m, OriginalOp);
    SomeOperationRoundTrip(m, OriginalOp, m.originalOp);
  }

  lemma ObjectRoundTrip(m: WireMessage)
    requires WellFormed(m)
    ensures DecodeObject(EncodeLine(m)) == Ok(m.(reason := FirstReason(m)))
  {
    FieldsRoundTrip(m);
    StringFieldsRoundTrip(m);
    LookupStored(m, Key.Op);
    SomeOperationRoundTrip(m, Key.Op, m.op);
  }

  /** The protocol round trip, exactly: decoding an encoded message gives the message back, except that
      its reason is the first one in the line. So the trip is faithful iff no operation carries a
      different reason of its own. */
  lemma MessageRoundTrip(m: WireMessage)
    requires WellFormed(m)
    ensures DecodeMessage(EncodeLine(m)) == Ok(m.(reason := FirstReason(m)))
    ensures DecodeMessage(EncodeLine(m)) == Ok(m) <==> FirstReason(m) == m.reason
  {
    ObjectRoundTrip(m);
    BraceFirst(PrintFields(MessageFields(m)));
  }

  lemma BraceFirst(fields: string)
    ensures var json := "{" + fields + "}"; json != "" && json[0] == '{' && SkipWs(json) == json
  {
  }

  // ----- One message, one line -----

  /** No control characters: in particular neither newline nor NUL. */
  predicate Printable(s: string) {
    forall i :: 0 <= i < |s| ==> s[i] >= ' '
  }

  lemma {:induction false} EscapePrintable(text: string)
    ensures Printable(Escape(text))
  {
    if text != "" {
      EscapePrintable(text[1..]);
      assert Printable(EscapeChar(text[0]));
    }
  }

  lemma {:induction false} ValuePrintable(v: Value)
    ensures Printable(PrintValue(v))
    decreases v
  {
    match v
    case Str(text) => EscapePrintable(text);
    case Num(n) => DecimalIsPlain(n);
    case Obj(fields) => FieldsPrintable(fields);
  }

  lemma {:induction false} FieldsPrintable(f: Fields)
    ensures Printable(PrintFields(f))
    decreases f
  {
    match f
    case Nil =>
    case Cons(k, value, rest) =>
      NamesAreNames(k);
      ValuePrintable(value);
      FieldsPrintable(rest);
  }

  /** Whatever its strings contain, a message is one line: the only newline is the one at the end. */
  lemma OneLine(m: WireMessage)
    ensures var line := EncodeMessage(m);
            line[|line| - 1] == '\n' && forall i :: 0 <= i < |line| - 1 ==> line[i] != '\n' && line[i] != '\0'
  {
    ValuePrintable(Obj(MessageFields(m)));
  }
}
