/** protocol.c as it runs: string builder, cursors and loops, computing the functions of Json and Protocol. */
module ProtocolLoops {
  import opened Operations
  import opened Messages
  import opened Decimals
  import opened Json
  import opened Utf8
  import opened Protocol
  import opened StringBuilders

  // ----- Writing -----

  lemma {:induction false} EscapeAppend(a: string, c: char)
    ensures Escape(a + [c]) == Escape(a) + EscapeChar(c)
  {
    if a == "" {
      assert a + [c] == [c] && [c][1..] == "";
    } else {
      EscapeAppend(a[1..], c);
      assert (a + [c])[0] == a[0] && (a + [c])[1..] == a[1..] + [c];
    }
  }

  method JsonEscape(value: string) returns (escaped: string)
    ensures escaped == Escape(value)
  {
    var sb := new StringBuilder();
    for i := 0 to |value|
      invariant sb.Valid() && fresh(sb) && fresh(sb.data)
      invariant sb.Contents() == Escape(value[..i])
    {
      EscapeAppend(value[..i], value[i]);
      assert value[..i + 1] == value[..i] + [value[i]];
      sb.Append(EscapeChar(value[i]));
    }
    assert value[..|value|] == value;
    escaped := sb.data[..sb.len];
  }

  lemma Assoc(a: string, b: string, c: string)
    ensures (a + b) + c == a + (b + c)
  {
  }

  lemma AssocFour(a: string, b: string, c: string, d: string)
    ensures a + ((b + c) + d) == ((a + b) + c) + d
  {
  }

  /** The comma, unless it is the first field, and the field name. */
  function Prefix(first: bool, name: string): string {
    (if first then "" else ",") + (Quote(name) + ":")
  }

  function FieldText(first: bool, name: string, value: string): string {
    Prefix(first, name) + value
  }

  method AppendFieldPrefix(sb: StringBuilder, first: bool, name: string) returns (stillFirst: bool)
    requires sb.Valid()
    modifies sb, sb.data
    ensures sb.Valid() && (sb.data == old(sb.data) || fresh(sb.data)) && !stillFirst
    ensures sb.Contents() == old(sb.Contents()) + Prefix(first, name)
  {
    ghost var before := sb.Contents();
    if !first {
      sb.Append(",");
    }
    var tag := Quote(name) + ":";
    sb.Append(tag);
    Assoc(before, if first then "" else ",", tag);
    stillFirst := false;
  }

  method AppendField(sb: StringBuilder, first: bool, name: string, value: string) returns (stillFirst: bool)
    requires sb.Valid()
    modifies sb, sb.data
    ensures sb.Valid() && (sb.data == old(sb.data) || fresh(sb.data)) && !stillFirst
    ensures sb.Contents() == old(sb.Contents()) + FieldText(first, name, value)
  {
    ghost var before := sb.Contents();
    stillFirst := AppendFieldPrefix(sb, first, name);
    sb.Append(value);
    Assoc(before, Prefix(first, name), value);
  }

  // ----- What is still to be appended -----

  /** The rest of the object once the fields before `f` have been appended. */
  function Remaining(first: bool, f: Fields): string {
    if f == Nil then "" else (if first then "" else ",") + PrintFields(f)
  }

  /** The builder is on its way to `total`: only the fields `f` are missing. */
  ghost predicate Towards(sb: StringBuilder, first: bool, f: Fields, total: string)
    reads sb, sb.data
  {
    sb.Valid() && sb.Contents() + Remaining(first, f) == total
  }

  lemma RemainingCons(first: bool, key: Key, value: Value, rest: Fields)
    ensures Remaining(first, Cons(key, value, rest))
            == FieldText(first, Name(key), PrintValue(value)) + Remaining(false, rest)
  {
    var comma, tag := if first then "" else ",", Quote(Name(key)) + ":";
    var text, more := PrintValue(value), Remaining(false, rest);
    assert PrintFields(Cons(key, value, rest)) == (tag + text) + more;
    AssocFour(comma, tag, text, more);
  }

  /** Appends one field and leaves the rest to come. */
  method WriteField(sb: StringBuilder, first: bool, name: string, text: string,
                    ghost key: Key, ghost value: Value, ghost rest: Fields, ghost total: string)
    returns (stillFirst: bool)
    requires name == Name(key) && text == PrintValue(value) && Towards(sb, first, Cons(key, value, rest), total)
    modifies sb, sb.data
    ensures (sb.data == old(sb.data) || fresh(sb.data)) && Towards(sb, stillFirst, rest, total)
  {
    RemainingCons(first, key, value, rest);
    ghost var before := sb.Contents();
    stillFirst := AppendField(sb, first, name, text);
    Assoc(before, FieldText(first, name, text), Remaining(false, rest));
  }

  method WriteString(sb: StringBuilder, first: bool, name: string, value: string,
                     ghost key: Key, ghost rest: Fields, ghost total: string)
    returns (stillFirst: bool)
    requires name == Name(key) && Towards(sb, first, AddString(key, value, rest), total)
    modifies sb, sb.data
    ensures (sb.data == old(sb.data) || fresh(sb.data)) && Towards(sb, stillFirst, rest, total)
  {
    if value == "" {
      return first;
    }
    var escaped := JsonEscape(value);
    stillFirst := WriteField(sb, first, name, Quote(escaped), key, Str(value), rest, total);
  }

  method WriteInt(sb: StringBuilder, first: bool, name: string, value: int,
                  ghost key: Key, ghost rest: Fields, ghost total: string)
    returns (stillFirst: bool)
    requires name == Name(key) && Towards(sb, first, AddInt(key, value, rest), total)
    modifies sb, sb.data
    ensures (sb.data == old(sb.data) || fresh(sb.data)) && Towards(sb, stillFirst, rest, total)
  {
    if value < 0 {
      return first;
    }
    stillFirst := WriteField(sb, first, name, Decimal(value), key, Num(value), rest, total);
  }

  lemma {:induction false} EscapePlain(s: string)
    requires forall i :: 0 <= i < |s| ==> 'a' <= s[i] <= 'z'
    ensures Escape(s) == s
  {
    if s != "" {
      EscapePlain(s[1..]);
    }
  }

  lemma OneTaken(text: string, key: Key, value: Value, rest: Fields, total: string)
    requires text + Remaining(false, Cons(key, value, rest)) == total
    ensures text + FieldText(false, Name(key), PrintValue(value)) + Remaining(false, rest) == total
  {
    RemainingCons(false, key, value, rest);
    Assoc(text, FieldText(false, Name(key), PrintValue(value)), Remaining(false, rest));
  }

  method OperationReason(text: string, reason: string, ghost total: string) returns (full: string)
    requires text + Remaining(false, AddString(Reason, reason, Nil)) == total
    ensures full == total
  {
    if reason == "" {
      return text;
    }
    OneTaken(text, Reason, Str(reason), Nil, total);
    var escaped := JsonEscape(reason);
    full := text + FieldText(false, "reason", Quote(escaped));
  }

  /** What follows the position. */
  function CharAndReason(op: Operation): Fields {
    if op.kind == Insert then Cons(Char, Str(op.ch), AddString(Reason, op.reason, Nil))
    else AddString(Reason, op.reason, Nil)
  }

  lemma StartOfOperation(op: Operation)
    ensures OperationFields(op) == Cons(Kind, Str(KindName(op.kind)), Cons(Pos, Num(op.pos), CharAndReason(op)))
  {
  }

  lemma KindIsPlain(kind: OpKind)
    ensures PrintValue(Str(KindName(kind))) == Quote(KindName(kind))
  {
    EscapePlain(KindName(kind));
  }

  lemma OperationStartExact(op: Operation, kind: Value, pos: Value, text: string)
    requires kind == Str(KindName(op.kind)) && pos == Num(op.pos)
    requires text == FieldText(true, Name(Kind), PrintValue(kind)) + FieldText(false, Name(Pos), PrintValue(pos))
    ensures text + Remaining(false, CharAndReason(op)) == PrintFields(OperationFields(op))
  {
    StartOfOperation(op);
    FirstTwo(text, Kind, kind, Pos, pos, CharAndReason(op));
  }

  /** The kind needs no escaping. */
  method OperationStart(op: Operation) returns (text: string)
    ensures text + Remaining(false, CharAndReason(op)) == PrintFields(OperationFields(op))
  {
    var name, number := KindName(op.kind), Decimal(op.pos);
    text := StartText(name, number);
    KindIsPlain(op.kind);
    OperationStartExact(op, Str(name), Num(op.pos), text);
  }

  method StartText(name: string, number: string) returns (text: string)
    ensures text == FieldText(true, Name(Kind), Quote(name)) + FieldText(false, Name(Pos), number)
  {
    text := "\"kind\":\"" + name + "\",\"pos\":" + number;
  }

  /** The object append_operation_field writes. */
  method OperationText(op: Operation) returns (text: string)
    ensures text == PrintValue(Obj(OperationFields(op)))
  {
    ghost var total := PrintFields(OperationFields(op));
    text := OperationStart(op);
    if op.kind == Insert {
      OneTaken(text, Char, Str(op.ch), AddString(Reason, op.reason, Nil), total);
      var escapedChar := JsonEscape(op.ch);
      text := text + FieldText(false, "char", Quote(escapedChar));
    }
    text := OperationReason(text, op.reason, total);
    text := "{" + text + "}";
  }

  lemma FirstTwo(text: string, k: Key, v: Value, l: Key, w: Value, rest: Fields)
    requires text == FieldText(true, Name(k), PrintValue(v)) + FieldText(false, Name(l), PrintValue(w))
    ensures text + Remaining(false, rest) == PrintFields(Cons(k, v, Cons(l, w, rest)))
  {
    RemainingCons(true, k, v, Cons(l, w, rest));
    RemainingCons(false, l, w, rest);
    Assoc(FieldText(true, Name(k), PrintValue(v)), FieldText(false, Name(l), PrintValue(w)), Remaining(false, rest));
  }

  method WriteOperation(sb: StringBuilder, first: bool, name: string, op: Option<Operation>,
                        ghost key: Key, ghost rest: Fields, ghost total: string)
    returns (stillFirst: bool)
    requires name == Name(key) && Towards(sb, first, AddOperation(key, op, rest), total)
    modifies sb, sb.data
    ensures (sb.data == old(sb.data) || fresh(sb.data)) && Towards(sb, stillFirst, rest, total)
  {
    if op == None {
      return first;
    }
    var text := OperationText(op.value);
    stillFirst := WriteField(sb, first, name, text, key, Obj(OperationFields(op.value)), rest, total);
  }

  method WriteVersions(sb: StringBuilder, started: bool, m: WireMessage, ghost total: string) returns (first: bool)
    requires Towards(sb, started, VersionFields(m), total)
    modifies sb, sb.data
    ensures (sb.data == old(sb.data) || fresh(sb.data)) && Towards(sb, first, OpFields(m), total)
  {
    ghost var one := AddInt(HistoryStartVersion, m.historyStartVersion, OpFields(m));
    ghost var two := AddInt(Version, m.version, one);
    first := WriteInt(sb, started, "base_version", m.baseVersion, BaseVersion,
                      AddInt(ServerVersion, m.serverVersion, two), total);
    first := WriteInt(sb, first, "server_version", m.serverVersion, ServerVersion, two, total);
    first := WriteInt(sb, first, "version", m.version, Version, one, total);
    first := WriteInt(sb, first, "history_start_version", m.historyStartVersion, HistoryStartVersion,
                      OpFields(m), total);
  }

  method WriteIds(sb: StringBuilder, started: bool, m: WireMessage, ghost total: string) returns (first: bool)
    requires Towards(sb, started, MessageFields(m), total)
    modifies sb, sb.data
    ensures (sb.data == old(sb.data) || fresh(sb.data)) && Towards(sb, first, VersionFields(m), total)
  {
    ghost var one := AddString(Key.OpId, m.opId, VersionFields(m));
    first := WriteString(sb, started, "type", m.mtype, Type, AddString(ClientId, m.clientId, one), total);
    first := WriteString(sb, first, "client_id", m.clientId, ClientId, one, total);
    first := WriteString(sb, first, "op_id", m.opId, Key.OpId, VersionFields(m), total);
  }

  method WriteOperations(sb: StringBuilder, started: bool, m: WireMessage, ghost total: string) returns (first: bool)
    requires Towards(sb, started, OpFields(m), total)
    modifies sb, sb.data
    ensures (sb.data == old(sb.data) || fresh(sb.data)) && Towards(sb, first, TextFields(m), total)
  {
    ghost var one := AddOperation(OriginalOp, m.originalOp, TextFields(m));
    first := WriteOperation(sb, started, "op", m.op, Key.Op, one, total);
    first := WriteOperation(sb, first, "original_op", m.originalOp, OriginalOp, TextFields(m), total);
  }

  method WriteContent(sb: StringBuilder, started: bool, content: Option<string>, ghost last: Fields,
                      ghost total: string)
    requires last == if content == None then Nil else Cons(Content, Str(content.value), Nil)
    requires Towards(sb, started, last, total)
    modifies sb, sb.data
    ensures (sb.data == old(sb.data) || fresh(sb.data)) && sb.Valid() && sb.Contents() == total
  {
    if content.Some? {
      var escaped := JsonEscape(content.value);
      var first := WriteField(sb, started, "content", Quote(escaped), Content, Str(content.value), Nil, total);
    }
  }

  /** ts_encode_message: fields in the order and under the conditions of MessageFields. */
  method EncodeMessageText(m: WireMessage) returns (line: string)
    ensures line == EncodeMessage(m)
  {
    var sb := new StringBuilder();
    sb.Append("{");
    ghost var total := "{" + PrintFields(MessageFields(m));
    assert sb.Contents() == "{";
    var first := WriteIds(sb, true, m, total);
    first := WriteVersions(sb, first, m, total);
    first := WriteOperations(sb, first, m, total);
    ghost var last := AddString(Reason, m.reason, ContentFields(m));
    first := WriteString(sb, first, "message", m.message, Message, last, total);
    first := WriteString(sb, first, "reason", m.reason, Reason, ContentFields(m), total);
    WriteContent(sb, first, m.content, ContentFields(m), total);
    sb.Append("}\n");
    line := sb.data[..sb.len];
    LineEnd(total);
  }

  lemma LineEnd(total: string)
    ensures total + "}\n" == (total + "}") + "\n"
  {
  }

  // ----- Reading -----

  /** strstr: the first place from `p` on where `pattern` stands. */
  method StrStr(s: string, p: nat, pattern: string) returns (at: Option<nat>)
    requires p <= |s| && pattern != ""
    ensures at == None ==> forall k :: p <= k <= |s| ==> !(pattern <= s[k..])
    ensures at.Some? ==> p <= at.value && at.value + |pattern| <= |s| && pattern <= s[at.value..]
    ensures at.Some? ==> forall k :: p <= k < at.value ==> !(pattern <= s[k..])
  {
    for k := p to |s|
      invariant forall j :: p <= j < k ==> !(pattern <= s[j..])
    {
      if pattern <= s[k..] {
        return Some(k);
      }
    }
    return None;
  }

  method SkipSpaces(s: string, p: nat) returns (q: nat)
    requires p <= |s|
    ensures p <= q <= |s| && s[q..] == SkipWs(s[p..])
  {
    q := p;
    while q < |s| && IsSpace(s[q])
      invariant p <= q <= |s| && SkipWs(s[q..]) == SkipWs(s[p..])
    {
      assert s[q..][0] == s[q] && s[q..][1..] == s[q + 1..];
      q := q + 1;
    }
    if q < |s| {
      assert s[q..][0] == s[q];
    }
  }

  lemma {:induction false} SkipUnmatched(s: string, p: nat, q: nat, key: string)
    requires p <= q <= |s| && forall k :: p <= k < q ==> !(Quote(key) <= s[k..])
    ensures FindKey(s[p..], key) == FindKey(s[q..], key)
    decreases q - p
  {
    if p < q {
      assert s[p..][1..] == s[p + 1..];
      SkipUnmatched(s, p + 1, q, key);
    }
  }

  lemma KeyHit(t: string, key: string, after: string)
    requires Quote(key) <= t && after == SkipWs(t[|Quote(key)|..])
    ensures FindKey(t, key) == if after != "" && after[0] == ':' then Some(SkipWs(after[1..]))
                               else FindKey(t[|Quote(key)|..], key)
  {
  }

  /** Looks behind a hit: the value when a colon follows, or where to search on. */
  method BehindHit(json: string, hit: nat, key: string) returns (value: Option<nat>)
    requires hit + |Quote(key)| <= |json| && Quote(key) <= json[hit..]
    ensures value.Some? ==> value.value <= |json|
    ensures FindKey(json[hit..], key)
            == if value == None then FindKey(json[hit + |Quote(key)|..], key) else Some(json[value.value..])
  {
    var p := hit + |Quote(key)|;
    var after := SkipSpaces(json, p);
    assert json[hit..][|Quote(key)|..] == json[p..];
    KeyHit(json[hit..], key, json[after..]);
    if after < |json| && json[after] == ':' {
      assert json[after..][1..] == json[after + 1..];
      var at := SkipSpaces(json, after + 1);
      return Some(at);
    }
    return None;
  }

  method NextHit(json: string, p: nat, key: string) returns (hit: Option<nat>)
    requires p <= |json|
    ensures hit == None ==> FindKey(json[p..], key) == None
    ensures hit.Some? ==> p <= hit.value && hit.value + |Quote(key)| <= |json| && Quote(key) <= json[hit.value..]
    ensures hit.Some? ==> FindKey(json[p..], key) == FindKey(json[hit.value..], key)
  {
    hit := StrStr(json, p, Quote(key));
    SkipUnmatched(json, p, if hit == None then |json| else hit.value, key);
    assert json[|json|..] == "";
  }

  /** One round of find_key: the value, or where to search on, or nothing more. */
  method TryNext(json: string, p: nat, key: string) returns (at: Option<nat>, next: Option<nat>)
    requires p <= |json|
    ensures at.Some? ==> at.value <= |json| && FindKey(json[p..], key) == Some(json[at.value..])
    ensures at == None && next.Some? ==>
              p < next.value <= |json| && FindKey(json[p..], key) == FindKey(json[next.value..], key)
    ensures at == next == None ==> FindKey(json[p..], key) == None
  {
    var hit := NextHit(json, p, key);
    if hit == None {
      return None, None;
    }
    at := BehindHit(json, hit.value, key);
    next := Some(hit.value + |Quote(key)|);
  }

  /** find_key; the result is an index into the text where C has a pointer. */
  method FindKeyAt(json: string, key: string) returns (at: Option<nat>)
    ensures at.Some? ==> at.value <= |json|
    ensures FindKey(json, key) == if at == None then None else Some(json[at.value..])
  {
    ghost var goal := FindKey(json, key);
    var next: Option<nat> := Some(0);
    at := None;
    assert json[0..] == json;
    while at == None && next.Some?
      invariant at.Some? ==> at.value <= |json| && goal == Some(json[at.value..])
      invariant at == None && next.Some? ==> next.value <= |json| && goal == FindKey(json[next.value..], key)
      invariant at == next == None ==> goal == None
      decreases at == None, next.Some?, if next.Some? then |json| - next.value else 0
    {
      at, next := TryNext(json, next.value, key);
    }
  }

  /** `done` characters have been read; the rest is still to come. */
  function ReadSoFar(done: string, rest: Option<string>): Option<string> {
    if rest == None then None else Some(done + rest.value)
  }

  lemma ReadOneMore(done: string, c: char, rest: Option<string>)
    ensures ReadSoFar(done, Prepend(c, rest)) == ReadSoFar(done + [c], rest)
  {
    if rest.Some? {
      assert done + ([c] + rest.value) == done + [c] + rest.value;
    }
  }

  /** One character of a string, escaped or not: what it stands for and how long it is written. */
  method ReadChar(s: string, p: nat) returns (c: char, next: nat, ok: bool)
    requires p < |s| && s[p] != '"'
    ensures if ok then p < next <= |s| && ParseBody(s[p..]) == Prepend(c, ParseBody(s[next..]))
            else ParseBody(s[p..]) == None
  {
    c, next, ok := s[p], p + 1, true;
    assert forall k :: 0 <= k <= 6 && p + k <= |s| ==> s[p..][k..] == s[p + k..];
    assert forall k :: 0 <= k < 6 && p + k < |s| ==> s[p..][k] == s[p + k];
    if s[p] != '\\' {
      return;
    }
    if p + 1 == |s| {
      return c, next, false;
    }
    var esc := s[p + 1];
    next := p + 2;
    if esc == '"' || esc == '\\' || esc == '/' {
      c := esc;
    } else if esc == 'n' {
      c := '\n';
    } else if esc == 'r' {
      c := '\r';
    } else if esc == 't' {
      c := '\t';
    } else if esc == 'u' {
      c, next, ok := ReadUnicode(s, p);
    } else {
      ok := false;
    }
  }

  method ReadUnicode(s: string, p: nat) returns (c: char, next: nat, ok: bool)
    requires p + 1 < |s| && s[p] == '\\' && s[p + 1] == 'u'
    ensures if ok then p < next <= |s| && ParseBody(s[p..]) == Prepend(c, ParseBody(s[next..]))
            else ParseBody(s[p..]) == None
  {
    c, next, ok := '?', p, false;
    var t := s[p..];
    assert forall k :: 0 <= k < |t| ==> t[k] == s[p + k];
    if |s| < p + 6 {
      return;
    }
    var h1, h2, h3, h4 := HexValue(s[p + 2]), HexValue(s[p + 3]), HexValue(s[p + 4]), HexValue(s[p + 5]);
    if h1 < 0 || h2 < 0 || h3 < 0 || h4 < 0 {
      return;
    }
    var code := h1 * 4096 + h2 * 256 + h3 * 16 + h4;
    assert t[6..] == s[p + 6..];
    c, next, ok := if 0 < code < 0x80 then code as char else '?', p + 6, true;
  }

  /** parse_json_string_alloc */
  method ParseJsonString(s: string, start: nat) returns (text: Option<string>)
    requires start <= |s|
    ensures text == ParseString(s[start..])
  {
    if start == |s| || s[start] != '"' {
      return None;
    }
    var p := start + 1;
    var done := "";
    assert s[start..][1..] == s[p..] && s[start..][0] == s[start];
    ghost var body := ParseBody(s[p..]);
    assert body.Some? ==> "" + body.value == body.value;
    while p < |s|
      invariant start < p <= |s|
      invariant ParseString(s[start..]) == ReadSoFar(done, ParseBody(s[p..]))
      decreases |s| - p
    {
      assert s[p..][0] == s[p];
      if s[p] == '"' {
        assert done + "" == done;
        return Some(done);
      }
      var c, next, ok := ReadChar(s, p);
      if !ok {
        return None;
      }
      ReadOneMore(done, c, ParseBody(s[next..]));
      done := done + [c];
      p := next;
    }
    assert s[|s|..] == "";
    return None;
  }

  lemma LongerTwice(j: nat, k: nat, rest: Option<nat>)
    ensures Longer(j, Longer(k, rest)) == Longer(j + k, rest)
  {
  }

  /** The brace-matching scan of json_get_object. */
  method MatchBraces(s: string, start: nat) returns (length: Option<nat>)
    requires start <= |s|
    ensures length == ObjectLength(s[start..], OUTSIDE)
    ensures length.Some? ==> start + length.value <= |s|
  {
    var inString, escape, depth, p := false, false, 0, start;
    while p < |s|
      invariant start <= p <= |s|
      invariant ObjectLength(s[start..], OUTSIDE)
             == Longer(p - start, ObjectLength(s[p..], Scan(inString, escape, depth)))
    {
      var ch := s[p];
      assert s[p..][0] == ch && s[p..][1..] == s[p + 1..];
      ghost var at := Scan(inString, escape, depth);
      if inString {
        if escape {
          escape := false;
        } else if ch == '\\' {
          escape := true;
        } else if ch == '"' {
          inString := false;
        }
      } else if ch == '"' {
        inString := true;
      } else if ch == '{' {
        depth := depth + 1;
      } else if ch == '}' {
        depth := depth - 1;
        if depth == 0 {
          return Some(p - start + 1);
        }
      }
      assert Scan(inString, escape, depth) == Advance(at, ch);
      LongerTwice(p - start, 1, ObjectLength(s[p + 1..], Advance(at, ch)));
      p := p + 1;
    }
    assert s[|s|..] == "";
    return None;
  }

  method JsonGetString(json: string, key: Key, size: nat) returns (text: Option<string>)
    requires size > 0
    ensures text == GetString(json, key, size)
  {
    var at := FindKeyAt(json, Name(key));
    if at == None {
      return None;
    }
    var parsed := ParseJsonString(json, at.value);
    text := if parsed == None then None else Some(Truncate(parsed.value, size));
  }

  /** A missing or unreadable field leaves the default in place. */
  method JsonGetStringOr(json: string, key: Key, size: nat, default: string) returns (text: string)
    requires size > 0
    ensures text == GetStringOr(json, key, size, default)
  {
    var found := JsonGetString(json, key, size);
    text := if found == None then default else found.value;
  }

  method JsonGetIntOr(json: string, key: Key, default: int) returns (n: int)
    ensures n == GetIntOr(json, key, default)
  {
    var at := FindKeyAt(json, Name(key));
    if at == None {
      return default;
    }
    var parsed := StrToL(json[at.value..]);
    n := if parsed == None then default else ToInt(parsed.value);
  }

  method JsonGetContent(json: string) returns (content: Option<string>)
    ensures content == GetContent(json)
  {
    var at := FindKeyAt(json, Name(Content));
    if at == None {
      return None;
    }
    content := ParseJsonString(json, at.value);
  }

  method JsonGetObject(json: string, key: Key) returns (text: Option<string>)
    ensures text == GetObject(json, key)
  {
    var at := FindKeyAt(json, Name(key));
    if at == None || at.value == |json| || json[at.value] != '{' {
      assert at.Some? && at.value < |json| ==> json[at.value..][0] == json[at.value];
      return None;
    }
    var length := MatchBraces(json, at.value);
    if length == None {
      return None;
    }
    assert json[at.value..][..length.value] == json[at.value..at.value + length.value];
    text := Some(json[at.value..at.value + length.value]);
  }

  method ParseOperationObject(json: string) returns (result: Decoded<Operation>)
    ensures result == ParseOperation(json)
  {
    var name := JsonGetString(json, Kind, MAX_TYPE);
    if name == None {
      return Err("operation kind is required");
    }
    var kind := KindFromName(name.value);
    if kind == Invalid {
      return Err("unsupported operation kind: " + name.value);
    }
    var pos := JsonGetIntOr(json, Pos, 0);
    var ch := "";
    if kind == Insert {
      var found := JsonGetString(json, Char, MAX_UTF8_CHAR);
      if found == None {
        return Err("insert operation requires one UTF-8 character");
      }
      var count := Utf8CharCount(found.value);
      if count != 1 {
        return Err("insert operation requires one UTF-8 character");
      }
      ch := found.value;
    }
    var reason := JsonGetStringOr(json, Reason, MAX_REASON, "");
    result := Ok(Operation(kind, if pos > 0 then pos else 0, ch, reason));
  }

  method DecodeFieldsText(json: string, mtype: string, op: Option<Operation>) returns (m: WireMessage)
    ensures m == DecodeFields(json, mtype, op)
  {
    var clientId := JsonGetStringOr(json, ClientId, MAX_CLIENT_ID, "");
    var opId := JsonGetStringOr(json, Key.OpId, MAX_OP_ID, "");
    var message := JsonGetStringOr(json, Message, MAX_STATUS, "");
    var reason := JsonGetStringOr(json, Reason, MAX_REASON, "");
    var baseVersion := JsonGetIntOr(json, BaseVersion, -1);
    var serverVersion := JsonGetIntOr(json, ServerVersion, -1);
    var version := JsonGetIntOr(json, Version, -1);
    var historyStartVersion := JsonGetIntOr(json, HistoryStartVersion, -1);
    var content := JsonGetContent(json);
    var originalText := JsonGetObject(json, OriginalOp);
    var original: Option<Operation> := None;
    if originalText.Some? {
      var parsed := ParseOperationObject(originalText.value);
      if parsed.Ok? {
        original := Some(parsed.value);
      }
    }
    m := WireMessage(mtype, clientId, opId, message, reason, baseVersion, serverVersion, version, historyStartVersion,
                     op, original, content);
  }

  /** ts_decode_message */
  method DecodeMessageText(line: string) returns (result: Decoded<WireMessage>)
    ensures result == DecodeMessage(line)
  {
    var start := SkipSpaces(line, 0);
    assert line[0..] == line;
    var json := line[start..];
    if json == "" || json[0] != '{' {
      return Err("protocol message must be a JSON object");
    }
    result := DecodeObjectText(json);
  }

  method DecodeObjectText(json: string) returns (result: Decoded<WireMessage>)
    ensures result == DecodeObject(json)
  {
    var mtype := JsonGetString(json, Type, MAX_TYPE);
    if mtype == None {
      return Err("message type is required");
    }
    var op: Option<Operation> := None;
    var opText := JsonGetObject(json, Key.Op);
    if opText.Some? {
      var parsed := ParseOperationObject(opText.value);
      if parsed.Err? {
        return Err(parsed.error);
      }
      op := Some(parsed.value);
    }
    var m := DecodeFieldsText(json, mtype.value, op);
    result := Ok(m);
  }
}
