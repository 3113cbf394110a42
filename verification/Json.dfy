/** The JSON of protocol.c: what its printer writes, and what its strstr-based reader finds in it. */
module Json {
  import opened Decimals
  import opened Messages

  // ----- Printed form -----

  /** The field names of the protocol. */
  datatype Key = Type | ClientId | OpId | BaseVersion | ServerVersion | Version | HistoryStartVersion
               | Op | OriginalOp | Message | Reason | Content | Kind | Pos | Char

  function Name(key: Key): string {
    match key
    case Type => "type"
    case ClientId => "client_id"
    case OpId => "op_id"
    case BaseVersion => "base_version"
    case ServerVersion => "server_version"
    case Version => "version"
    case HistoryStartVersion => "history_start_version"
    case Op => "op"
    case OriginalOp => "original_op"
    case Message => "message"
    case Reason => "reason"
    case Content => "content"
    case Kind => "kind"
    case Pos => "pos"
    case Char => "char"
  }

  datatype Value = Str(text: string) | Num(n: nat) | Obj(fields: Fields)
  datatype Fields = Nil | Cons(key: Key, value: Value, rest: Fields)

  function HexDigit(n: nat): char
    requires n < 16
  {
    if n < 10 then ('0' as int + n) as char else ('a' as int + n - 10) as char
  }

  function EscapeChar(c: char): string {
    if c == '\\' then "\\\\"
    else if c == '"' then "\\\""
    else if c == '\n' then "\\n"
    else if c == '\r' then "\\r"
    else if c == '\t' then "\\t"
    else if c as int < 0x20 then ['\\', 'u', '0', '0', HexDigit(c as int / 16), HexDigit(c as int % 16)]
    else [c]
  }

  function Escape(text: string): string {
    if text == "" then "" else EscapeChar(text[0]) + Escape(text[1..])
  }

  function Quote(s: string): string {
    "\"" + s + "\""
  }

  function PrintValue(v: Value): string {
    match v
    case Str(text) => Quote(Escape(text))
    case Num(n) => Decimal(n)
    case Obj(fields) => "{" + PrintFields(fields) + "}"
  }

  function PrintFields(f: Fields): string {
    match f
    case Nil => ""
    case Cons(key, value, rest) =>
      Quote(Name(key)) + ":" + PrintValue(value) + (if rest == Nil then "" else "," + PrintFields(rest))
  }

  // ----- Reading: suffixes of the line stand for C pointers into it -----

  predicate IsSpace(c: char) {
    c == ' ' || ('\t' <= c <= '\r')
  }

  function SkipWs(s: string): string {
    if s != "" && IsSpace(s[0]) then SkipWs(s[1..]) else s
  }

  /** Looks for the quoted key followed by a colon, anywhere; returns what follows the colon. */
  function FindKey(s: string, key: string): Option<string>
    decreases |s|
  {
    var pattern := Quote(key);
    if s == "" then None
    else if pattern <= s then
      var after := SkipWs(s[|pattern|..]);
      if after != "" && after[0] == ':' then Some(SkipWs(after[1..])) else FindKey(s[|pattern|..], key)
    else FindKey(s[1..], key)
  }

  function HexValue(c: char): int {
    if '0' <= c <= '9' then c as int - '0' as int
    else if 'a' <= c <= 'f' then 10 + c as int - 'a' as int
    else if 'A' <= c <= 'F' then 10 + c as int - 'A' as int
    else -1
  }

  function Prepend(c: char, rest: Option<string>): Option<string> {
    if rest == None then None else Some([c] + rest.value)
  }

  /** The contents of a string whose opening quote has been read. */
  function ParseBody(s: string): Option<string> {
    if s == "" then None
    else if s[0] == '"' then Some("")
    else if s[0] != '\\' then Prepend(s[0], ParseBody(s[1..]))
    else if |s| < 2 then None
    else if s[1] == '"' || s[1] == '\\' || s[1] == '/' then Prepend(s[1], ParseBody(s[2..]))
    else if s[1] == 'n' then Prepend('\n', ParseBody(s[2..]))
    else if s[1] == 'r' then Prepend('\r', ParseBody(s[2..]))
    else if s[1] == 't' then Prepend('\t', ParseBody(s[2..]))
    else if s[1] == 'u' then
      if |s| < 6 || HexValue(s[2]) < 0 || HexValue(s[3]) < 0 || HexValue(s[4]) < 0 || HexValue(s[5]) < 0 then None
      else
        var code := HexValue(s[2]) * 4096 + HexValue(s[3]) * 256 + HexValue(s[4]) * 16 + HexValue(s[5]);
        Prepend(if 0 < code < 0x80 then code as char else '?', ParseBody(s[6..]))
    else None
  }

  function ParseString(s: string): Option<string> {
    if s == "" || s[0] != '"' then None else ParseBody(s[1..])
  }

  function LeadingDigits(s: string): string {
    if s != "" && IsDigit(s[0]) then [s[0]] + LeadingDigits(s[1..]) else ""
  }

  lemma {:induction false} LeadingDigitsAreDigits(s: string)
    ensures AllDigits(LeadingDigits(s))
  {
    if s != "" && IsDigit(s[0]) {
      LeadingDigitsAreDigits(s[1..]);
    }
  }

  const INT_MAX := 0x7FFF_FFFF
  const LONG_MAX := 0x7FFF_FFFF_FFFF_FFFF

  /** Conversion of a long to a 32-bit int keeps the low bits. */
  function ToInt(n: int): (r: int)
    ensures r <= INT_MAX && (-INT_MAX - 1 <= n <= INT_MAX ==> r == n)
  {
    (n + INT_MAX + 1) % 0x1_0000_0000 - INT_MAX - 1
  }

  /** strtol in base 10; None when there is no number, or it does not fit a 64-bit long. */
  function StrToL(s: string): Option<int> {
    var t := SkipWs(s);
    var signed := t != "" && (t[0] == '-' || t[0] == '+');
    var digits := LeadingDigits(if signed then t[1..] else t);
    LeadingDigitsAreDigits(if signed then t[1..] else t);
    if digits == "" then None
    else
      var magnitude: int := ParseDigits(digits);
      var n: int := if signed && t[0] == '-' then 0 - magnitude else magnitude;
      if -LONG_MAX - 1 <= n <= LONG_MAX then Some(n) else None
  }

  function Longer(k: nat, rest: Option<nat>): Option<nat> {
    if rest == None then None else Some(k + rest.value)
  }

  /** Where the scan for the closing brace stands. */
  datatype Scan = Scan(inString: bool, escape: bool, depth: int)

  function Advance(at: Scan, c: char): Scan {
    if at.inString then
      if at.escape then at.(escape := false)
      else if c == '\\' then at.(escape := true)
      else if c == '"' then at.(inString := false)
      else at
    else if c == '"' then at.(inString := true)
    else if c == '{' then at.(depth := at.depth + 1)
    else if c == '}' then at.(depth := at.depth - 1)
    else at
  }

  /** How many characters up to and with the brace that closes the object, skipping over strings. */
  function ObjectLength(s: string, at: Scan): Option<nat> {
    if s == "" then None
    else if !at.inString && s[0] == '}' && at.depth == 1 then Some(1)
    else Longer(1, ObjectLength(s[1..], Advance(at, s[0])))
  }

  // ----- Names -----

  predicate IsNameChar(c: char) {
    'a' <= c <= 'z' || c == '_'
  }

  predicate IsName(s: string) {
    s != "" && forall i :: 0 <= i < |s| ==> IsNameChar(s[i])
  }

  lemma NamesAreNames(key: Key)
    ensures IsName(Name(key))
  {
  }

  lemma NamesDistinct(a: Key, b: Key)
    requires Name(a) == Name(b)
    ensures a == b
  {
    assert |Name(a)| == |Name(b)| && Name(a)[0] == Name(b)[0];
  }

  // ----- Strings: parsing undoes escaping -----

  lemma HexPairParses(n: nat, tail: string)
    requires 0 < n < 0x20
    ensures ParseBody(['\\', 'u', '0', '0', HexDigit(n / 16), HexDigit(n % 16)] + tail)
            == Prepend(n as char, ParseBody(tail))
  {
    var e := ['\\', 'u', '0', '0', HexDigit(n / 16), HexDigit(n % 16)];
    assert (e + tail)[6..] == tail;
    assert HexValue(e[4]) == n / 16 && HexValue(e[5]) == n % 16;
    assert n / 16 * 16 + n % 16 == n;
  }

  lemma PairParses(e: char, c: char, tail: string)
    requires || (e == c && (c == '\\' || c == '"')) || (e == 'n' && c == '\n')
             || (e == 'r' && c == '\r') || (e == 't' && c == '\t')
    ensures ParseBody(['\\', e] + tail) == Prepend(c, ParseBody(tail))
  {
    assert (['\\', e] + tail)[2..] == tail;
  }

  lemma EscapeCharParses(c: char, tail: string)
    requires c != '\0'
    ensures ParseBody(EscapeChar(c) + tail) == Prepend(c, ParseBody(tail))
  {
    var e := EscapeChar(c);
    if |e| == 6 {
      HexPairParses(c as int, tail);
    } else if |e| == 2 {
      PairParses(e[1], c, tail);
      assert e == ['\\', e[1]];
    } else {
      assert ([c] + tail)[1..] == tail;
    }
  }

  predicate NulFree(s: string) {
    forall i :: 0 <= i < |s| ==> s[i] != '\0'
  }

  lemma {:induction false} StringRoundTrip(text: string, tail: string)
    requires NulFree(text)
    ensures ParseBody(Escape(text) + "\"" + tail) == Some(text)
  {
    if text != "" {
      StringRoundTrip(text[1..], tail);
      EscapeCharParses(text[0], Escape(text[1..]) + "\"" + tail);
      assert Escape(text) + "\"" + tail == EscapeChar(text[0]) + (Escape(text[1..]) + "\"" + tail);
      assert text == [text[0]] + text[1..];
    } else {
      assert Escape(text) + "\"" + tail == "\"" + tail;
    }
  }

  // ----- Where FindKey stops -----

  /** What may follow a value: nothing that FindKey or a number could run into. */
  predicate Ends(tail: string) {
    tail != "" && (tail[0] == ',' || tail[0] == '}')
  }

  /** In an escaped string a quote never stands at the front, nor without a backslash before it. */
  predicate QuotesEscaped(s: string) {
    && (s != "" ==> s[0] != '"')
    && forall i :: 0 < i < |s| && s[i] == '"' ==> s[i - 1] == '\\'
  }

  lemma EscapeCharQuotes(c: char)
    ensures EscapeChar(c) != "" && QuotesEscaped(EscapeChar(c))
  {
  }

  lemma {:induction false} EscapeQuotes(text: string)
    ensures QuotesEscaped(Escape(text))
  {
    if text != "" {
      EscapeQuotes(text[1..]);
      EscapeCharQuotes(text[0]);
    }
  }

  lemma SkipOneChar(s: string, key: string)
    requires s != "" && s[0] != '"'
    ensures FindKey(s, key) == FindKey(s[1..], key)
  {
    assert Quote(key)[0] == '"';
  }

  lemma {:induction false} SkipPlain(w: string, tail: string, key: string)
    requires forall i :: 0 <= i < |w| ==> w[i] != '"'
    ensures FindKey(w + tail, key) == FindKey(tail, key)
  {
    if w == "" {
      assert w + tail == tail;
    } else {
      SkipOneChar(w + tail, key);
      assert (w + tail)[1..] == w[1..] + tail;
      SkipPlain(w[1..], tail, key);
    }
  }

  /** A quoted key at the front of `body`, quote, `tail` can only be all of the body. */
  lemma PatternIsWholeBody(body: string, tail: string, key: string)
    requires IsName(key) && forall i :: 0 < i < |body| && body[i] == '"' ==> body[i - 1] == '\\'
    requires body != "" ==> body[0] != '"'
    requires Quote(key) <= "\"" + body + "\"" + tail
    ensures body == key
  {
    var s := "\"" + body + "\"" + tail;
    assert forall i :: 0 <= i < |key| ==> key[i] == Quote(key)[i + 1] == s[i + 1];
    assert s[|key| + 1] == Quote(key)[|key| + 1] == '"' && s[|body| + 1] == '"';
    assert forall i :: 0 <= i < |body| ==> body[i] == s[i + 1];
    assert forall i :: 1 <= i <= |key| ==> IsNameChar(s[i]);
    assert |body| >= |key|;
    assert s[|key|] == key[|key| - 1];
    assert forall i :: 0 < i < |body| && s[i + 1] == '"' ==> s[i] == '\\';
    assert |body| <= |key|;
  }

  lemma NoMatchAfterValue(tail: string, key: string)
    requires Ends(tail)
    ensures SkipWs(tail) == tail && tail[0] != ':'
  {
  }

  /** No key is found inside what is left of a string value, nor at its closing quote. */
  lemma {:induction false} SkipBody(body: string, tail: string, key: string)
    requires IsName(key) && Ends(tail)
    requires forall i :: 0 < i < |body| && body[i] == '"' ==> body[i - 1] == '\\'
    ensures FindKey(body + "\"" + tail, key) == FindKey(tail, key)
    decreases |body|
  {
    var s, pattern := body + "\"" + tail, Quote(key);
    if body == "" {
      assert s == "\"" + tail && s[1] == tail[0];
      assert pattern[1] == key[0] && IsNameChar(key[0]);
      assert !(pattern <= s);
      assert s[1..] == tail;
    } else {
      assert s[1..] == body[1..] + "\"" + tail;
      if body[0] != '"' {
        SkipOneChar(s, key);
        SkipBody(body[1..], tail, key);
      } else {
        assert s == "\"" + body[1..] + "\"" + tail;
        if pattern <= s {
          PatternIsWholeBody(body[1..], tail, key);
          assert s[|pattern|..] == tail;
          NoMatchAfterValue(tail, key);
        } else {
          SkipBody(body[1..], tail, key);
        }
      }
    }
  }

  lemma SkipString(text: string, tail: string, key: string)
    requires IsName(key) && Ends(tail)
    ensures FindKey(Quote(Escape(text)) + tail, key) == FindKey(tail, key)
  {
    EscapeQuotes(text);
    var body := "\"" + Escape(text);
    assert Quote(Escape(text)) + tail == body + "\"" + tail;
    SkipBody(body, tail, key);
  }

  lemma SkipOtherKey(name: string, tail: string, key: string)
    requires IsName(key) && IsName(name) && name != key
    ensures FindKey(Quote(name) + ":" + tail, key) == FindKey(tail, key)
  {
    var s, pattern := Quote(name) + ":" + tail, Quote(key);
    assert s == "\"" + name + "\"" + (":" + tail);
    if pattern <= s {
      PatternIsWholeBody(name, ":" + tail, key);
    }
    assert s[1..] == name + ("\":" + tail);
    SkipPlain(name, "\":" + tail, key);
    var t := "\":" + tail;
    assert t[1] == ':' && pattern[1] == key[0] && IsNameChar(key[0]);
    assert !(pattern <= t);
    assert t[1..] == ":" + tail && (":" + tail)[1..] == tail;
    SkipOneChar(":" + tail, key);
  }

  lemma FindsItsKey(tail: string, key: string)
    requires tail != "" && !IsSpace(tail[0])
    ensures FindKey(Quote(key) + ":" + tail, key) == Some(tail)
  {
    var s := Quote(key) + ":" + tail;
    assert Quote(key) <= s && s[|Quote(key)|..] == ":" + tail;
    assert (":" + tail)[1..] == tail;
  }

  /** The first field of that name, looking into an object before going on to the next field. */
  function Lookup(f: Fields, key: Key): Option<Value> {
    match f
    case Nil => None
    case Cons(k, value, rest) =>
      if k == key then Some(value)
      else if value.Obj? && Lookup(value.fields, key).Some? then Lookup(value.fields, key)
      else Lookup(rest, key)
  }

  /** What FindKey must return when the search in the printed fields gave `found`, with `after` following. */
  ghost predicate Found(result: Option<string>, found: Option<Value>, after: Option<string>) {
    match found
    case None => result == after
    case Some(v) => result.Some? && PrintValue(v) <= result.value && Ends(result.value[|PrintValue(v)|..])
  }

  lemma DecimalIsPlain(n: nat)
    ensures Decimal(n) != "" && forall i :: 0 <= i < |Decimal(n)| ==> IsDigit(Decimal(n)[i])
  {
    DecimalRoundTrip(n);
  }

  lemma SkipBraces(body: string, tail: string, key: string)
    ensures FindKey("{" + body + "}" + tail, key) == FindKey(body + ("}" + tail), key)
    ensures FindKey("}" + tail, key) == FindKey(tail, key)
  {
    var s := "{" + body + "}" + tail;
    SkipOneChar(s, key);
    assert s[1..] == body + ("}" + tail);
    SkipOneChar("}" + tail, key);
    assert ("}" + tail)[1..] == tail;
  }

  lemma {:induction false} FindInValue(v: Value, tail: string, key: Key)
    requires Ends(tail)
    ensures PrintValue(v) != "" && !IsSpace(PrintValue(v)[0])
    ensures Found(FindKey(PrintValue(v) + tail, Name(key)), if v.Obj? then Lookup(v.fields, key) else None,
                  FindKey(tail, Name(key)))
    decreases v
  {
    NamesAreNames(key);
    match v
    case Str(text) => SkipString(text, tail, Name(key));
    case Num(n) =>
      DecimalIsPlain(n);
      SkipPlain(Decimal(n), tail, Name(key));
    case Obj(fields) =>
      SkipBraces(PrintFields(fields), tail, Name(key));
      FindInFields(fields, "}" + tail, key);
  }

  /** One field: either the one looked for, or passed over up to its value. */
  lemma FindField(k: Key, value: Value, more: string, key: Key)
    requires Ends(more) && PrintValue(value) != "" && !IsSpace(PrintValue(value)[0])
    ensures var r := FindKey(Quote(Name(k)) + ":" + (PrintValue(value) + more), Name(key));
            if k == key then r == Some(PrintValue(value) + more)
            else r == FindKey(PrintValue(value) + more, Name(key))
  {
    if k == key {
      FindsItsKey(PrintValue(value) + more, Name(key));
    } else {
      NamesAreNames(k);
      NamesAreNames(key);
      if Name(k) == Name(key) {
        NamesDistinct(k, key);
      }
      SkipOtherKey(Name(k), PrintValue(value) + more, Name(key));
    }
  }

  /** What follows a field's value in the printed fields. */
  function After(rest: Fields, tail: string): string {
    if rest == Nil then tail else "," + (PrintFields(rest) + tail)
  }

  lemma PrintConsField(k: Key, value: Value, rest: Fields, tail: string)
    ensures PrintFields(Cons(k, value, rest)) + tail == Quote(Name(k)) + ":" + (PrintValue(value) + After(rest, tail))
  {
    var more := if rest == Nil then "" else "," + PrintFields(rest);
    assert After(rest, tail) == more + tail;
    Reassociate(Quote(Name(k)) + ":", PrintValue(value), more, tail);
  }

  lemma Reassociate(a: string, b: string, c: string, d: string)
    ensures a + b + c + d == a + (b + (c + d))
  {
  }

  lemma FindAfter(rest: Fields, tail: string, key: Key)
    requires Ends(tail)
    ensures Ends(After(rest, tail))
    ensures FindKey(After(rest, tail), Name(key)) == FindKey(PrintFields(rest) + tail, Name(key))
  {
    if rest == Nil {
      assert PrintFields(rest) + tail == tail;
    } else {
      var t := PrintFields(rest) + tail;
      SkipOneChar("," + t, Name(key));
      assert ("," + t)[1..] == t;
    }
  }

  lemma {:induction false} FindInFields(f: Fields, tail: string, key: Key)
    requires Ends(tail)
    ensures Found(FindKey(PrintFields(f) + tail, Name(key)), Lookup(f, key), FindKey(tail, Name(key)))
    decreases f
  {
    match f
    case Nil => assert PrintFields(f) + tail == tail;
    case Cons(k, value, rest) =>
      PrintConsField(k, value, rest, tail);
      FindAfter(rest, tail, key);
      FindInValue(value, After(rest, tail), key);
      FindField(k, value, After(rest, tail), key);
      if k == key {
        assert (PrintValue(value) + After(rest, tail))[|PrintValue(value)|..] == After(rest, tail);
      } else {
        FindInFields(rest, tail, key);
      }
  }

  // ----- Reading back what was found -----

  lemma {:induction false} LeadingDigitsExact(digits: string, tail: string)
    requires AllDigits(digits) && Ends(tail)
    ensures LeadingDigits(digits + tail) == digits
  {
    if digits == "" {
      assert digits + tail == tail;
    } else {
      assert (digits + tail)[0] == digits[0] && (digits + tail)[1..] == digits[1..] + tail;
      LeadingDigitsExact(digits[1..], tail);
    }
  }

  lemma NumberRoundTrip(n: nat, s: string)
    requires PrintValue(Num(n)) <= s && Ends(s[|PrintValue(Num(n))|..])
    ensures StrToL(s) == if n <= LONG_MAX then Some(n) else None
  {
    var tail := s[|Decimal(n)|..];
    assert s == Decimal(n) + tail;
    DecimalRoundTrip(n);
    DecimalIsPlain(n);
    LeadingDigitsExact(Decimal(n), tail);
    assert s[0] == Decimal(n)[0];
    assert SkipWs(s) == s;
  }

  lemma QuotedRoundTrip(text: string, s: string)
    requires NulFree(text) && PrintValue(Str(text)) <= s
    ensures ParseString(s) == Some(text)
  {
    var tail := s[|PrintValue(Str(text))|..];
    assert s == Quote(Escape(text)) + tail;
    assert s[1..] == Escape(text) + "\"" + tail;
    StringRoundTrip(text, tail);
  }

  const OUTSIDE := Scan(false, false, 0)

  function Inside(depth: int): Scan {
    Scan(true, false, depth)
  }

  function Between(depth: int): Scan {
    Scan(false, false, depth)
  }

  /** `w` takes the scan from one state to another without reaching the end of the object. */
  predicate Carries(w: string, from: Scan, to: Scan) {
    if w == "" then from == to
    else !(!from.inString && w[0] == '}' && from.depth == 1) && Carries(w[1..], Advance(from, w[0]), to)
  }

  lemma {:induction false} CarriedLength(w: string, tail: string, from: Scan, to: Scan)
    requires Carries(w, from, to)
    ensures ObjectLength(w + tail, from) == Longer(|w|, ObjectLength(tail, to))
  {
    if w == "" {
      assert w + tail == tail;
    } else {
      assert (w + tail)[0] == w[0] && (w + tail)[1..] == w[1..] + tail;
      CarriedLength(w[1..], tail, Advance(from, w[0]), to);
    }
  }

  lemma {:induction false} CarriesAppend(a: string, b: string, from: Scan, mid: Scan, to: Scan)
    requires Carries(a, from, mid) && Carries(b, mid, to)
    ensures Carries(a + b, from, to)
  {
    if a == "" {
      assert a + b == b;
    } else {
      assert (a + b)[0] == a[0] && (a + b)[1..] == a[1..] + b;
      CarriesAppend(a[1..], b, Advance(from, a[0]), mid, to);
    }
  }

  lemma CarriesOne(c: char, from: Scan)
    requires !(!from.inString && c == '}' && from.depth == 1)
    ensures Carries([c], from, Advance(from, c))
  {
    assert [c][1..] == "";
  }

  lemma {:induction false} PlainCarries(w: string, at: Scan)
    requires !at.escape && forall i :: 0 <= i < |w| ==> w[i] != '"' && w[i] != '{' && w[i] != '}' && w[i] != '\\'
    ensures Carries(w, at, at)
  {
    if w != "" {
      PlainCarries(w[1..], at);
    }
  }

  lemma UnitCarries(c: char, depth: int)
    ensures Carries(EscapeChar(c), Inside(depth), Inside(depth))
  {
    var e := EscapeChar(c);
    if |e| == 1 {
      CarriesOne(e[0], Inside(depth));
    } else {
      CarriesOne(e[0], Inside(depth));
      CarriesOne(e[1], Scan(true, true, depth));
      CarriesAppend([e[0]], [e[1]], Inside(depth), Scan(true, true, depth), Inside(depth));
      PlainCarries(e[2..], Inside(depth));
      CarriesAppend([e[0]] + [e[1]], e[2..], Inside(depth), Inside(depth), Inside(depth));
      assert e == [e[0]] + [e[1]] + e[2..];
    }
  }

  lemma {:induction false} EscapeCarries(text: string, depth: int)
    ensures Carries(Escape(text), Inside(depth), Inside(depth))
  {
    if text != "" {
      UnitCarries(text[0], depth);
      EscapeCarries(text[1..], depth);
      CarriesAppend(EscapeChar(text[0]), Escape(text[1..]), Inside(depth), Inside(depth), Inside(depth));
    }
  }

  lemma QuoteCarries(s: string, depth: int)
    requires Carries(s, Inside(depth), Inside(depth))
    ensures Carries(Quote(s), Between(depth), Between(depth))
  {
    CarriesOne('"', Between(depth));
    CarriesOne('"', Inside(depth));
    CarriesAppend("\"", s, Between(depth), Inside(depth), Inside(depth));
    CarriesAppend("\"" + s, "\"", Between(depth), Inside(depth), Between(depth));
  }

  lemma NameCarries(key: Key, depth: int)
    ensures Carries(Quote(Name(key)) + ":", Between(depth), Between(depth))
  {
    NamesAreNames(key);
    PlainCarries(Name(key), Inside(depth));
    QuoteCarries(Name(key), depth);
    CarriesOne(':', Between(depth));
    CarriesAppend(Quote(Name(key)), ":", Between(depth), Between(depth), Between(depth));
  }

  lemma {:induction false} ValueCarries(v: Value, depth: int)
    requires depth >= 1
    ensures Carries(PrintValue(v), Between(depth), Between(depth))
    decreases v
  {
    match v
    case Str(text) =>
      EscapeCarries(text, depth);
      QuoteCarries(Escape(text), depth);
    case Num(n) =>
      DecimalIsPlain(n);
      PlainCarries(Decimal(n), Between(depth));
    case Obj(fields) =>
      CarriesOne('{', Between(depth));
      FieldsCarry(fields, depth + 1);
      CarriesOne('}', Between(depth + 1));
      CarriesAppend("{", PrintFields(fields), Between(depth), Between(depth + 1), Between(depth + 1));
      CarriesAppend("{" + PrintFields(fields), "}", Between(depth), Between(depth + 1), Between(depth));
  }

  lemma {:induction false} FieldsCarry(f: Fields, depth: int)
    requires depth >= 1
    ensures Carries(PrintFields(f), Between(depth), Between(depth))
    decreases f
  {
    match f
    case Nil =>
    case Cons(k, value, rest) =>
      var at := Between(depth);
      NameCarries(k, depth);
      ValueCarries(value, depth);
      CarriesAppend(Quote(Name(k)) + ":", PrintValue(value), at, at, at);
      if rest != Nil {
        CarriesOne(',', at);
        FieldsCarry(rest, depth);
        CarriesAppend(",", PrintFields(rest), at, at, at);
        CarriesAppend(Quote(Name(k)) + ":" + PrintValue(value), "," + PrintFields(rest), at, at, at);
      } else {
        assert PrintFields(f) == Quote(Name(k)) + ":" + PrintValue(value);
      }
  }

  /** Brace matching cuts out exactly the printed object, whatever its strings contain. */
  lemma ObjectCutExactly(fields: Fields, s: string)
    requires PrintValue(Obj(fields)) <= s
    ensures ObjectLength(s, OUTSIDE) == Some(|PrintValue(Obj(fields))|)
  {
    var inner := PrintFields(fields);
    var tail := s[|PrintValue(Obj(fields))|..];
    assert s == "{" + inner + ("}" + tail);
    CarriesOne('{', OUTSIDE);
    FieldsCarry(fields, 1);
    CarriesAppend("{", inner, OUTSIDE, Between(1), Between(1));
    CarriedLength("{" + inner, "}" + tail, OUTSIDE, Between(1));
  }
}
