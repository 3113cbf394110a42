/** Byte-level text: what util.c does to UTF-8 bytes is what the operations mean on characters. A Dafny
    char is a Unicode scalar value; bytes are written as the chars below 256. */
module Utf8 {
  import opened Operations

  function B(n: nat): (b: char)
    requires n < 0x100
    ensures b as int == n
  {
    n as char
  }

  // ----- UTF-8 as section 3 of RFC 3629 defines it -----

  function EncodeChar(c: char): (bytes: string)
    ensures 1 <= |bytes| <= 4
  {
    var n := c as int;
    if n < 0x80 then [B(n)]
    else if n < 0x800 then [B(0xC0 + n / 64), B(0x80 + n % 64)]
    else if n < 0x1_0000 then [B(0xE0 + n / 4096), B(0x80 + n / 64 % 64), B(0x80 + n % 64)]
    else [B(0xF0 + n / 262144), B(0x80 + n / 4096 % 64), B(0x80 + n / 64 % 64), B(0x80 + n % 64)]
  }

  /** The characters of a text, each as its bytes. */
  function Characters(t: string): seq<string> {
    seq(|t|, i requires 0 <= i < |t| => EncodeChar(t[i]))
  }

  function Flatten(cs: seq<string>): string {
    if cs == [] then [] else cs[0] + Flatten(cs[1..])
  }

  function Encode(t: string): string {
    Flatten(Characters(t))
  }

  // ----- The helpers of util.c -----

  /** (value & 0xC0) == 0x80 */
  predicate IsContinuation(b: char) {
    0x80 <= b as int < 0xC0
  }

  /** Length of a character from its first byte; 1 for a byte that starts none. */
  function CharBytes(first: char): nat {
    var n := first as int;
    if n < 0x80 then 1
    else if 0xC0 <= n < 0xE0 then 2
    else if 0xE0 <= n < 0xF0 then 3
    else if 0xF0 <= n < 0xF8 then 4
    else 1
  }

  function CountLeads(bytes: string): nat {
    if bytes == [] then 0
    else CountLeads(bytes[..|bytes| - 1]) + (if IsContinuation(bytes[|bytes| - 1]) then 0 else 1)
  }

  /** Skips whole characters by their first bytes. */
  function ByteOffset(text: string, charPos: nat): (i: nat)
    ensures i <= |text|
    decreases charPos
  {
    if charPos == 0 || text == [] || CharBytes(text[0]) > |text| then 0
    else CharBytes(text[0]) + ByteOffset(text[CharBytes(text[0])..], charPos - 1)
  }

  /** What ts_apply_operation_to_text makes of a C string, by byte offsets. */
  function ApplyBytes(text: string, op: Operation): string {
    var chars := CountLeads(text);
    if op.kind == Insert then
      var at := ByteOffset(text, Min(op.pos, chars));
      text[..at] + op.ch + text[at..]
    else if op.kind == Delete && op.pos < chars then
      text[..ByteOffset(text, op.pos)] + text[ByteOffset(text, op.pos + 1)..]
    else text
  }

  // ----- Character boundaries -----

  /** The bytes of exactly one character, as far as util.c looks at them. */
  predicate OneCharacter(bytes: string) {
    && bytes != [] && CharBytes(bytes[0]) == |bytes| && !IsContinuation(bytes[0])
    && forall i :: 1 <= i < |bytes| ==> IsContinuation(bytes[i])
  }

  predicate AllCharacters(cs: seq<string>) {
    forall i :: 0 <= i < |cs| ==> OneCharacter(cs[i])
  }

  lemma EncodingsAreCharacters(t: string)
    ensures AllCharacters(Characters(t))
  {
  }

  lemma {:induction false} FlattenAppend(a: seq<string>, b: seq<string>)
    ensures Flatten(a + b) == Flatten(a) + Flatten(b)
  {
    if a == [] {
      assert a + b == b;
    } else {
      FlattenAppend(a[1..], b);
      assert (a + b)[0] == a[0] && (a + b)[1..] == a[1..] + b;
    }
  }

  lemma {:induction false} CountLeadsAppend(a: string, b: string)
    ensures CountLeads(a + b) == CountLeads(a) + CountLeads(b)
  {
    if b == [] {
      assert a + b == a;
    } else {
      CountLeadsAppend(a, b[..|b| - 1]);
      assert (a + b)[..|a + b| - 1] == a + b[..|b| - 1];
    }
  }

  lemma {:induction false} CountLeadsTail(bytes: string)
    requires bytes != [] && !IsContinuation(bytes[0])
    requires forall i :: 1 <= i < |bytes| ==> IsContinuation(bytes[i])
    ensures CountLeads(bytes) == 1
  {
    if |bytes| > 1 {
      CountLeadsTail(bytes[..|bytes| - 1]);
    } else {
      assert bytes[..0] == [];
    }
  }

  /** Counting bytes that are not continuations counts characters. */
  lemma {:induction false} CountLeadsExact(cs: seq<string>)
    requires AllCharacters(cs)
    ensures CountLeads(Flatten(cs)) == |cs|
  {
    if cs != [] {
      CountLeadsExact(cs[1..]);
      CountLeadsTail(cs[0]);
      CountLeadsAppend(cs[0], Flatten(cs[1..]));
    }
  }

  lemma FirstCharacter(cs: seq<string>)
    requires AllCharacters(cs) && cs != []
    ensures Flatten(cs) != [] && CharBytes(Flatten(cs)[0]) == |cs[0]| <= |Flatten(cs)|
    ensures Flatten(cs)[|cs[0]|..] == Flatten(cs[1..])
  {
    assert OneCharacter(cs[0]);
  }

  lemma NoBytesNoCharacters(cs: seq<string>)
    requires AllCharacters(cs)
    ensures Flatten(cs) == [] <==> cs == []
  {
    if cs != [] {
      FirstCharacter(cs);
    }
  }

  /** The offset of a character position is the encoded length of the characters before it. */
  lemma {:induction false} ByteOffsetExact(cs: seq<string>, k: nat)
    requires AllCharacters(cs)
    ensures var m := Min(k, |cs|);
            ByteOffset(Flatten(cs), k) == |Flatten(cs[..m])| && Flatten(cs) == Flatten(cs[..m]) + Flatten(cs[m..])
  {
    var m := Min(k, |cs|);
    FlattenAppend(cs[..m], cs[m..]);
    assert cs == cs[..m] + cs[m..];
    if k > 0 && cs != [] {
      FirstCharacter(cs);
      ByteOffsetExact(cs[1..], k - 1);
      assert cs[..m][0] == cs[0] && cs[..m][1..] == cs[1..][..m - 1];
    }
  }

  // ----- Bytes refine characters -----

  lemma ApplyToCharacters(cs: seq<string>, op: Operation, ins: seq<string>)
    requires AllCharacters(cs) && op.ch == Flatten(ins)
    ensures ApplyBytes(Flatten(cs), op) == Flatten(Splice(cs, op, ins))
  {
    CountLeadsExact(cs);
    if op.kind == Insert {
      var p := Min(op.pos, |cs|);
      ByteOffsetExact(cs, p);
      FlattenAppend(cs[..p] + ins, cs[p..]);
      FlattenAppend(cs[..p], ins);
    } else if op.kind == Delete && op.pos < |cs| {
      ByteOffsetExact(cs, op.pos);
      ByteOffsetExact(cs, op.pos + 1);
      FlattenAppend(cs[..op.pos], cs[op.pos + 1..]);
    }
  }

  lemma SpliceCharacters(t: string, op: Operation)
    ensures Characters(ApplyOp(t, op)) == Splice(Characters(t), op, Characters(op.ch))
  {
  }

  /** The operation as it sits in memory: the inserted character is its bytes. */
  function EncodeOp(op: Operation): Operation {
    op.(ch := Encode(op.ch))
  }

  /** The byte form refines the character form: an operation on the encoding of a text gives the encoding
      of what the same operation does to the characters. */
  lemma ApplyBytesRefines(t: string, op: Operation)
    ensures ApplyBytes(Encode(t), EncodeOp(op)) == Encode(ApplyOp(t, op))
  {
    EncodingsAreCharacters(t);
    SpliceCharacters(t, op);
    ApplyToCharacters(Characters(t), EncodeOp(op), Characters(op.ch));
  }

  lemma CountLeadsIsLength(t: string)
    ensures CountLeads(Encode(t)) == |t|
  {
    EncodingsAreCharacters(t);
    CountLeadsExact(Characters(t));
  }

  function EncodeLog(log: seq<Operation>): seq<Operation> {
    seq(|log|, i requires 0 <= i < |log| => EncodeOp(log[i]))
  }

  /** Replaying a log with any way of applying one operation. */
  function ReplayBy(apply: (string, Operation) -> string, initial: string, log: seq<Operation>, v: nat): string
    requires v <= |log|
  {
    if v == 0 then initial else apply(ReplayBy(apply, initial, log, v - 1), log[v - 1])
  }

  lemma {:induction false} ReplayRefines(apply: (string, Operation) -> string, initial: string, log: seq<Operation>,
                                         v: nat)
    requires v <= |log|
    requires forall t: string, op: Operation :: apply(Encode(t), EncodeOp(op)) == Encode(ApplyOp(t, op))
    ensures ReplayBy(apply, Encode(initial), EncodeLog(log), v) == Encode(TextAt(initial, log, v))
  {
    if v > 0 {
      ReplayRefines(apply, initial, log, v - 1);
    }
  }

  /** Well-formedness is kept over any run: replaying any operations on the bytes of a text gives the
      encoding of what replaying them on its characters gives. */
  lemma RunsStayWellFormed(initial: string, log: seq<Operation>, v: nat)
    requires v <= |log|
    ensures ReplayBy(ApplyBytes, Encode(initial), EncodeLog(log), v) == Encode(TextAt(initial, log, v))
  {
    forall t: string, op: Operation
      ensures ApplyBytes(Encode(t), EncodeOp(op)) == Encode(ApplyOp(t, op))
    {
      ApplyBytesRefines(t, op);
    }
    ReplayRefines(ApplyBytes, initial, log, v);
  }

  lemma CharacterBytes(c: char)
    ensures forall i :: 0 <= i < |EncodeChar(c)| ==>
                          EncodeChar(c)[i] as int < 0x100 && (EncodeChar(c)[i] == '\0' ==> c == '\0')
  {
  }

  /** The encoding is a C string: bytes, and no NUL when the text has none. */
  lemma {:induction false} EncodeIsCString(t: string, i: nat)
    requires i < |Encode(t)| && '\0' !in t
    ensures Encode(t)[i] as int < 0x100 && Encode(t)[i] != '\0'
  {
    assert Characters(t)[0] == EncodeChar(t[0]);
    assert Characters(t)[1..] == Characters(t[1..]);
    CharacterBytes(t[0]);
    if i >= |Characters(t)[0]| {
      EncodeIsCString(t[1..], i - |Characters(t)[0]|);
    }
  }

  // ----- No two texts share an encoding -----

  lemma Base64(n: nat)
    ensures n == 64 * (n / 64) + n % 64
    ensures n / 64 == 64 * (n / 4096) + n / 64 % 64
    ensures n / 4096 == 64 * (n / 262144) + n / 4096 % 64
  {
    assert n / 64 / 64 == n / 4096;
    assert n / 4096 / 64 == n / 262144;
  }

  /** The scalar value spelled by the bytes of one character. */
  function ScalarOf(bytes: string): int {
    if |bytes| == 1 then bytes[0] as int
    else if |bytes| == 2 then (bytes[0] as int - 0xC0) * 64 + (bytes[1] as int - 0x80)
    else if |bytes| == 3 then (bytes[0] as int - 0xE0) * 4096 + (bytes[1] as int - 0x80) * 64 + (bytes[2] as int - 0x80)
    else if |bytes| == 4 then
      (bytes[0] as int - 0xF0) * 262144 + (bytes[1] as int - 0x80) * 4096
      + (bytes[2] as int - 0x80) * 64 + (bytes[3] as int - 0x80)
    else 0
  }

  lemma EncodeCharRoundTrip(c: char)
    ensures ScalarOf(EncodeChar(c)) == c as int
  {
    Base64(c as int);
  }

  lemma EncodeCharInjective(c: char, d: char)
    requires EncodeChar(c) == EncodeChar(d)
    ensures c == d
  {
    EncodeCharRoundTrip(c);
    EncodeCharRoundTrip(d);
    assert c == c as int as char;
  }

  lemma {:induction false} FlattenInjective(a: seq<string>, b: seq<string>)
    requires AllCharacters(a) && AllCharacters(b) && Flatten(a) == Flatten(b)
    ensures a == b
  {
    if a != [] && b != [] {
      FirstCharacter(a);
      FirstCharacter(b);
      assert a[0] == Flatten(a)[..|a[0]|] && b[0] == Flatten(b)[..|b[0]|];
      FlattenInjective(a[1..], b[1..]);
      assert a == [a[0]] + a[1..] && b == [b[0]] + b[1..];
    } else if a != [] {
      FirstCharacter(a);
    } else if b != [] {
      FirstCharacter(b);
    }
  }

  /** Texts are equal iff their bytes are: comparing and copying C strings loses nothing. */
  lemma EncodeInjective(s: string, t: string)
    requires Encode(s) == Encode(t)
    ensures s == t
  {
    EncodingsAreCharacters(s);
    EncodingsAreCharacters(t);
    FlattenInjective(Characters(s), Characters(t));
    forall i | 0 <= i < |s|
      ensures s[i] == t[i]
    {
      assert Characters(s)[i] == Characters(t)[i];
      EncodeCharInjective(s[i], t[i]);
    }
  }

  // ----- Reading bytes as characters -----

  predicate IsScalar(n: int) {
    0 <= n < 0xD800 || 0xE000 <= n < 0x11_0000
  }

  /** The characters that bytes spell; bytes that spell none are passed over. */
  function Decode(bytes: string): string {
    if bytes == "" then ""
    else
      var k := Min(CharBytes(bytes[0]), |bytes|);
      var n := ScalarOf(bytes[..k]);
      (if IsScalar(n) then [n as char] else []) + Decode(bytes[k..])
  }

  lemma {:induction false} DecodeCharacters(t: string)
    ensures Decode(Flatten(Characters(t))) == t
  {
    if t != "" {
      var cs := Characters(t);
      assert cs[0] == EncodeChar(t[0]) && cs[1..] == Characters(t[1..]);
      EncodingsAreCharacters(t);
      FirstCharacter(cs);
      EncodeCharRoundTrip(t[0]);
      assert Flatten(cs)[..|cs[0]|] == cs[0] && Flatten(cs)[|cs[0]|..] == Flatten(cs[1..]);
      DecodeCharacters(t[1..]);
    }
  }

  /** Reading undoes encoding. */
  lemma DecodeEncode(t: string)
    ensures Decode(Encode(t)) == t
  {
    DecodeCharacters(t);
  }

  // ----- The loops of util.c -----

  method Utf8CharCount(text: string) returns (count: nat)
    ensures count == CountLeads(text)
  {
    count := 0;
    for i := 0 to |text|
      invariant count == CountLeads(text[..i])
    {
      assert text[..i + 1][..i] == text[..i];
      if !IsContinuation(text[i]) {
        count := count + 1;
      }
    }
    assert text[..|text|] == text;
  }

  method Utf8ByteOffset(text: string, charPos: nat, ghost cs: seq<string>) returns (i: nat)
    requires AllCharacters(cs) && text == Flatten(cs)
    ensures i == ByteOffset(text, charPos)
  {
    ByteOffsetExact(cs, charPos);
    i := SkipCharacters(text, charPos, cs);
  }

  method SkipCharacters(text: string, charPos: nat, ghost cs: seq<string>) returns (i: nat)
    requires AllCharacters(cs) && text == Flatten(cs)
    ensures i == |Flatten(cs[..Min(charPos, |cs|)])|
  {
    var chars := 0;
    i := 0;
    assert cs[0..] == cs;
    while i < |text|
      invariant chars <= charPos && chars <= |cs|
      invariant i == |Flatten(cs[..chars])| && i <= |text| && text[i..] == Flatten(cs[chars..])
      decreases |text| - i
    {
      if chars == charPos {
        return;
      }
      FirstCharacter(cs[chars..]);
      FlattenAppend(cs[..chars], [cs[chars]]);
      assert cs[..chars + 1] == cs[..chars] + [cs[chars]] && cs[chars..][1..] == cs[chars + 1..];
      assert Flatten([cs[chars]]) == cs[chars] + Flatten([]);
      assert text[i..][0] == text[i];
      var bytes := CharBytes(text[i]);
      assert text[i..][bytes..] == text[i + bytes..];
      i := i + bytes;
      chars := chars + 1;
    }
    NoBytesNoCharacters(cs[chars..]);
  }

  /** Copies `source` into the buffer from position `at` on, as memcpy does. */
  method Memcpy(buffer: array<char>, at: nat, source: string)
    requires at + |source| <= buffer.Length
    modifies buffer
    ensures buffer[..] == old(buffer[..at]) + source + old(buffer[at + |source|..])
  {
    forall i | 0 <= i < |source| {
      buffer[at + i] := source[i];
    }
  }

  lemma Reassociate(a: string, b: string, c: string)
    ensures a + (b + c) == a + b + c
  {
  }

  /** malloc and memcpy: a fresh NUL-terminated copy of the parts. */
  method CopyParts(left: string, middle: string, right: string) returns (result: array<char>)
    ensures fresh(result) && result[..] == left + middle + right + ['\0']
  {
    result := new char[|left| + |middle| + |right| + 1](_ => '\0');
    Memcpy(result, 0, left);
    assert result[..|left|] == left;
    Memcpy(result, |left|, middle);
    assert result[..|left| + |middle|] == left + middle;
    Memcpy(result, |left| + |middle|, right + ['\0']);
    Reassociate(left + middle, right, ['\0']);
  }

  method SplitAt(text: string, charPos: nat, ghost cs: seq<string>) returns (left: string, right: string)
    requires AllCharacters(cs) && text == Flatten(cs)
    ensures left == text[..ByteOffset(text, charPos)] && right == text[ByteOffset(text, charPos)..]
  {
    var bytePos := Utf8ByteOffset(text, charPos, cs);
    left, right := text[..bytePos], text[bytePos..];
  }

  lemma PiecesOfInsert(text: string, op: Operation, left: string, right: string)
    requires op.kind == Insert
    requires var at := ByteOffset(text, Min(op.pos, CountLeads(text))); left == text[..at] && right == text[at..]
    ensures left + op.ch + right == ApplyBytes(text, op)
  {
  }

  lemma PiecesOfDelete(text: string, op: Operation, left: string, right: string)
    requires op.kind == Delete && op.pos < CountLeads(text)
    requires left == text[..ByteOffset(text, op.pos)] && right == text[ByteOffset(text, op.pos + 1)..]
    ensures left + "" + right == ApplyBytes(text, op)
  {
    assert left + "" == left;
  }

  method InsertPieces(text: string, op: Operation, chars: nat, ghost cs: seq<string>)
    returns (left: string, right: string)
    requires AllCharacters(cs) && text == Flatten(cs) && chars == CountLeads(text) && op.kind == Insert
    ensures left + op.ch + right == ApplyBytes(text, op)
  {
    left, right := SplitAt(text, if op.pos > chars then chars else op.pos, cs);
    PiecesOfInsert(text, op, left, right);
  }

  method DeletePieces(text: string, op: Operation, ghost cs: seq<string>) returns (left: string, right: string)
    requires AllCharacters(cs) && text == Flatten(cs) && op.kind == Delete && op.pos < CountLeads(text)
    ensures left + "" + right == ApplyBytes(text, op)
  {
    var tail: string;
    left, tail := SplitAt(text, op.pos, cs);
    tail, right := SplitAt(text, op.pos + 1, cs);
    PiecesOfDelete(text, op, left, right);
  }

  lemma UntouchedBytes(text: string, op: Operation)
    requires op.kind != Insert && (op.kind == Delete ==> op.pos >= CountLeads(text))
    ensures text + "" + "" == ApplyBytes(text, op)
  {
  }

  /** What is kept before the edit, what is inserted, and what is kept after it. */
  method Pieces(text: string, op: Operation, ghost cs: seq<string>)
    returns (left: string, middle: string, right: string)
    requires AllCharacters(cs) && text == Flatten(cs)
    ensures left + middle + right == ApplyBytes(text, op)
  {
    var sourceChars := Utf8CharCount(text);
    if op.kind == Insert {
      left, right := InsertPieces(text, op, sourceChars, cs);
      middle := op.ch;
    } else if op.kind == Delete && op.pos < sourceChars {
      left, right := DeletePieces(text, op, cs);
      middle := "";
    } else {
      left, middle, right := text, "", "";
      UntouchedBytes(text, op);
    }
  }

  /** The buffer a call returns is the NUL-terminated encoding of the edited text. */
  method ApplyOperationToText(text: string, op: Operation, ghost t: string, ghost meant: Operation)
    returns (result: array<char>)
    requires text == Encode(t) && op == EncodeOp(meant)
    ensures fresh(result) && result[..] == Encode(ApplyOp(t, meant)) + ['\0']
  {
    EncodingsAreCharacters(t);
    ApplyBytesRefines(t, meant);
    var left, middle, right := Pieces(text, op, Characters(t));
    result := CopyParts(left, middle, right);
  }
}
