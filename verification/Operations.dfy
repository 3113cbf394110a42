/** Edit operations, their effect on a text, and the operational transformation of document.c. */
module Operations {

  datatype OpKind = Invalid | Insert | Delete | Noop

  /** One edit. Positions count characters; `ch` is the inserted character, `reason` explains a Noop. */
  datatype Operation = Operation(kind: OpKind, pos: nat, ch: string, reason: string)

  const ALREADY_DELETED := "same character already deleted"
  const OUT_OF_RANGE := "delete position out of range"
  const INVALID_OPERATION := "invalid operation"

  function MakeNoop(op: Operation, reason: string): Operation {
    Operation(Noop, op.pos, "", reason)
  }

  function Min(a: nat, b: nat): nat {
    if a < b then a else b
  }

  /** What an operation does to any sequence, with `ins` standing for the inserted character:
      the same splice serves texts and the character identities used in the intention proofs. */
  function Splice<A>(t: seq<A>, op: Operation, ins: seq<A>): seq<A> {
    match op.kind
    case Insert => var p := Min(op.pos, |t|); t[..p] + ins + t[p..]
    case Delete => if op.pos < |t| then t[..op.pos] + t[op.pos + 1..] else t
    case Noop => t
    case Invalid => t
  }

  function ApplyOp(text: string, op: Operation): string {
    Splice(text, op, op.ch)
  }

  /** The operations the document accepts. */
  predicate Acceptable(op: Operation) {
    op.kind != Invalid && (op.kind == Insert ==> |op.ch| == 1)
  }

  /** The position denotes a gap (insert) or a character (delete) of a text of length `len`. */
  predicate InRange(op: Operation, len: nat) {
    match op.kind
    case Insert => op.pos <= len
    case Delete => op.pos < len
    case Noop => true
    case Invalid => false
  }

  predicate Fits(op: Operation, len: nat) {
    Acceptable(op) && InRange(op, len)
  }

  /** Rewrites `op` into the coordinates that hold once `previous` has been applied. */
  function Transform(op: Operation, previous: Operation): Operation {
    if op.kind == Noop || previous.kind == Noop then op
    else if previous.kind == Insert then
      if (op.kind == Insert || op.kind == Delete) && previous.pos <= op.pos then op.(pos := op.pos + 1) else op
    else if previous.kind == Delete then
      if op.kind == Insert && previous.pos < op.pos then op.(pos := op.pos - 1)
      else if op.kind == Delete then
        if previous.pos < op.pos then op.(pos := op.pos - 1)
        else if previous.pos == op.pos then MakeNoop(op, ALREADY_DELETED)
        else op
      else op
    else op
  }

  /** Last step before an operation is applied to a text of length `len`. */
  function Normalize(op: Operation, len: nat): Operation {
    match op.kind
    case Noop => op
    case Insert => if op.pos > len then op.(pos := len) else op
    case Delete => if op.pos < len then op else MakeNoop(op, OUT_OF_RANGE)
    case Invalid => MakeNoop(op, INVALID_OPERATION)
  }

  // ----- Replaying a log of operations; version v is the text after the first v of them -----

  function TextAt(initial: string, log: seq<Operation>, v: nat): string
    requires v <= |log|
  {
    if v == 0 then initial else ApplyOp(TextAt(initial, log, v - 1), log[v - 1])
  }

  /** `op`, written against version `base`, carried over log entries base+1..v. */
  function Fold(op: Operation, log: seq<Operation>, base: nat, v: nat): Operation
    requires v <= |log|
  {
    if v <= base then op else Transform(Fold(op, log, base, v - 1), log[v - 1])
  }

  /** The first v operations were all accepted and in range of the text they were applied to. */
  ghost predicate ValidLog(initial: string, log: seq<Operation>, v: nat)
    requires v <= |log|
  {
    v == 0 || (ValidLog(initial, log, v - 1) && Fits(log[v - 1], |TextAt(initial, log, v - 1)|))
  }

  /** What the server records for `op` written against version `base`, given the log so far. */
  function Ordered(initial: string, log: seq<Operation>, base: nat, op: Operation): Operation {
    Normalize(Fold(op, log, base, |log|), |TextAt(initial, log, |log|)|)
  }

  // ----- One step -----

  lemma TransformKeepsRange<A>(op: Operation, previous: Operation, t: seq<A>, ins: seq<A>)
    requires InRange(op, |t|) && InRange(previous, |t|)
    requires previous.kind == Insert ==> |ins| == 1
    ensures InRange(Transform(op, previous), |Splice(t, previous, ins)|)
  {
  }

  lemma NormalizeInRange(op: Operation, len: nat)
    ensures InRange(Normalize(op, len), len)
    ensures InRange(op, len) ==> Normalize(op, len) == op
    ensures Acceptable(op) ==> Acceptable(Normalize(op, len))
  {
  }

  /** Normalizing never changes what the operation does to the text, only how it is recorded. */
  lemma NormalizeSameEffect(op: Operation, text: string)
    ensures ApplyOp(text, Normalize(op, |text|)) == ApplyOp(text, op)
  {
  }

  /** What an operation that has come to nothing says: where it stood, and why. */
  lemma NoopsExplain(op: Operation, previous: Operation, len: nat)
    requires op.kind != Noop
    ensures Transform(op, previous).kind == Noop ==>
              Transform(op, previous) == Operation(Noop, op.pos, "", "same character already deleted")
    ensures Normalize(op, len).kind == Noop <==> !InRange(op, len) && op.kind != Insert
    ensures Normalize(op, len).kind == Noop ==>
              Normalize(op, len)
              == Operation(Noop, op.pos, "",
                           if op.kind == Delete then "delete position out of range" else "invalid operation")
  {
  }

  // ----- TP1: the two orders of a pair of concurrent edits -----

  predicate SameGapInserts(a: Operation, b: Operation) {
    a.kind == Insert && b.kind == Insert && a.pos == b.pos
  }

  lemma InsertsInOneGap(text: string, a: Operation, b: Operation)
    requires SameGapInserts(a, b) && a.pos <= |text|
    ensures ApplyOp(ApplyOp(text, a), Transform(b, a)) == text[..a.pos] + a.ch + b.ch + text[a.pos..]
    requires |a.ch| == 1
  {
    var one := ApplyOp(text, a);
    assert one[..a.pos + 1] == text[..a.pos] + a.ch;
    assert one[a.pos + 1..] == text[a.pos..];
  }

  lemma TwoInserts(text: string, a: Operation, b: Operation)
    requires a.kind == Insert && b.kind == Insert && a.pos < b.pos <= |text| && |a.ch| == 1 && |b.ch| == 1
    ensures ApplyOp(ApplyOp(text, a), Transform(b, a))
            == text[..a.pos] + a.ch + text[a.pos..b.pos] + b.ch + text[b.pos..]
  {
    var one := ApplyOp(text, a);
    assert one[..b.pos + 1] == text[..a.pos] + a.ch + text[a.pos..b.pos] && one[b.pos + 1..] == text[b.pos..];
  }

  lemma InsertsCommute(text: string, a: Operation, b: Operation)
    requires a.kind == Insert && b.kind == Insert && a.pos < b.pos <= |text| && |a.ch| == 1 && |b.ch| == 1
    ensures ApplyOp(ApplyOp(text, a), Transform(b, a)) == ApplyOp(ApplyOp(text, b), Transform(a, b))
  {
    var two := ApplyOp(text, b);
    TwoInserts(text, a, b);
    assert two[..a.pos] == text[..a.pos] && two[a.pos..] == text[a.pos..b.pos] + b.ch + text[b.pos..];
  }

  lemma InsertBeforeDeleteCommute(text: string, a: Operation, b: Operation)
    requires a.kind == Insert && b.kind == Delete && a.pos <= b.pos < |text| && |a.ch| == 1
    ensures ApplyOp(ApplyOp(text, a), Transform(b, a)) == ApplyOp(ApplyOp(text, b), Transform(a, b))
  {
    var both := text[..a.pos] + a.ch + text[a.pos..b.pos] + text[b.pos + 1..];
    var one, two := ApplyOp(text, a), ApplyOp(text, b);
    assert one[..b.pos + 1] == text[..a.pos] + a.ch + text[a.pos..b.pos] && one[b.pos + 2..] == text[b.pos + 1..];
    assert two[..a.pos] == text[..a.pos] && two[a.pos..] == text[a.pos..b.pos] + text[b.pos + 1..];
    assert ApplyOp(one, Transform(b, a)) == both == ApplyOp(two, Transform(a, b));
  }

  lemma InsertThenDeleteBefore(text: string, a: Operation, b: Operation)
    requires a.kind == Insert && b.kind == Delete && b.pos < a.pos <= |text| && |a.ch| == 1
    ensures ApplyOp(ApplyOp(text, a), Transform(b, a)) == text[..b.pos] + text[b.pos + 1..a.pos] + a.ch + text[a.pos..]
  {
    var one := ApplyOp(text, a);
    assert one[..b.pos] == text[..b.pos] && one[b.pos + 1..] == text[b.pos + 1..a.pos] + a.ch + text[a.pos..];
  }

  lemma InsertAfterDeleteCommute(text: string, a: Operation, b: Operation)
    requires a.kind == Insert && b.kind == Delete && b.pos < a.pos <= |text| && |a.ch| == 1
    ensures ApplyOp(ApplyOp(text, a), Transform(b, a)) == ApplyOp(ApplyOp(text, b), Transform(a, b))
  {
    var two := ApplyOp(text, b);
    InsertThenDeleteBefore(text, a, b);
    assert two[..a.pos - 1] == text[..b.pos] + text[b.pos + 1..a.pos] && two[a.pos - 1..] == text[a.pos..];
  }

  lemma DeletesCommute(text: string, a: Operation, b: Operation)
    requires a.kind == Delete && b.kind == Delete && a.pos <= b.pos < |text|
    ensures ApplyOp(ApplyOp(text, a), Transform(b, a)) == ApplyOp(ApplyOp(text, b), Transform(a, b))
  {
    if a.pos < b.pos {
      var both := text[..a.pos] + text[a.pos + 1..b.pos] + text[b.pos + 1..];
      var one, two := ApplyOp(text, a), ApplyOp(text, b);
      assert one[..b.pos - 1] == text[..a.pos] + text[a.pos + 1..b.pos] && one[b.pos..] == text[b.pos + 1..];
      assert two[..a.pos] == text[..a.pos] && two[a.pos + 1..] == text[a.pos + 1..b.pos] + text[b.pos + 1..];
      assert ApplyOp(one, Transform(b, a)) == both;
      assert ApplyOp(two, Transform(a, b)) == both;
    }
  }

  /** TP1 with its exact exception: the two orders agree unless both edits insert different
      characters into one gap, where the order of arrival is the order of the two characters. */
  lemma TransformationProperty(text: string, a: Operation, b: Operation)
    requires Acceptable(a) && Acceptable(b) && InRange(a, |text|) && InRange(b, |text|)
    ensures ApplyOp(ApplyOp(text, a), Transform(b, a)) == ApplyOp(ApplyOp(text, b), Transform(a, b))
            <==> !(SameGapInserts(a, b) && a.ch != b.ch)
    ensures SameGapInserts(a, b) ==>
              ApplyOp(ApplyOp(text, a), Transform(b, a)) == text[..a.pos] + a.ch + b.ch + text[a.pos..]
  {
    if SameGapInserts(a, b) {
      InsertsInOneGap(text, a, b);
      InsertsInOneGap(text, b, a);
      var ab, ba := text[..a.pos] + a.ch + b.ch + text[a.pos..], text[..a.pos] + b.ch + a.ch + text[a.pos..];
      assert ab[a.pos] == a.ch[0] && ba[a.pos] == b.ch[0];
    } else if a.kind == Insert && b.kind == Insert {
      if a.pos < b.pos { InsertsCommute(text, a, b); } else { InsertsCommute(text, b, a); }
    } else if a.kind == Insert && b.kind == Delete {
      if a.pos <= b.pos { InsertBeforeDeleteCommute(text, a, b); } else { InsertAfterDeleteCommute(text, a, b); }
    } else if a.kind == Delete && b.kind == Insert {
      if b.pos <= a.pos { InsertBeforeDeleteCommute(text, b, a); } else { InsertAfterDeleteCommute(text, b, a); }
    } else if a.kind == Delete && b.kind == Delete {
      if a.pos <= b.pos { DeletesCommute(text, a, b); } else { DeletesCommute(text, b, a); }
    }
  }

  // ----- Whole logs -----

  lemma {:induction false} TextAtPrefix(initial: string, log: seq<Operation>, more: seq<Operation>, v: nat)
    requires v <= |log| && log <= more
    ensures TextAt(initial, more, v) == TextAt(initial, log, v)
  {
    if v > 0 {
      TextAtPrefix(initial, log, more, v - 1);
    }
  }

  lemma {:induction false} FoldPrefix(op: Operation, log: seq<Operation>, more: seq<Operation>, base: nat, v: nat)
    requires v <= |log| && log <= more
    ensures Fold(op, more, base, v) == Fold(op, log, base, v)
  {
    if v > base {
      FoldPrefix(op, log, more, base, v - 1);
    }
  }

  lemma {:induction false} FoldCompose(op: Operation, log: seq<Operation>, base: nat, mid: nat, v: nat)
    requires base <= mid <= v <= |log|
    ensures Fold(op, log, base, v) == Fold(Fold(op, log, base, mid), log, mid, v)
  {
    if v > mid {
      FoldCompose(op, log, base, mid, v - 1);
    }
  }

  lemma {:induction false} ValidLogEarlier(initial: string, log: seq<Operation>, u: nat, v: nat)
    requires u <= v <= |log| && ValidLog(initial, log, v)
    ensures ValidLog(initial, log, u)
  {
    if u < v {
      ValidLogEarlier(initial, log, u, v - 1);
    }
  }

  lemma {:induction false} ValidLogPrefix(initial: string, log: seq<Operation>, more: seq<Operation>, v: nat)
    requires v <= |log| && log <= more && ValidLog(initial, log, v)
    ensures ValidLog(initial, more, v)
  {
    if v > 0 {
      ValidLogPrefix(initial, log, more, v - 1);
      TextAtPrefix(initial, log, more, v - 1);
    }
  }

  lemma ValidLogExtend(initial: string, log: seq<Operation>, op: Operation)
    requires ValidLog(initial, log, |log|) && Fits(op, |TextAt(initial, log, |log|)|)
    ensures ValidLog(initial, log + [op], |log| + 1)
    ensures TextAt(initial, log + [op], |log| + 1) == ApplyOp(TextAt(initial, log, |log|), op)
  {
    ValidLogPrefix(initial, log, log + [op], |log|);
    TextAtPrefix(initial, log, log + [op], |log|);
  }

  /** Range preservation: an edit valid on the text it was written against stays valid however many
      later operations it is folded over, so the final normalization leaves it alone. */
  lemma {:induction false} FoldKeepsRange(initial: string, log: seq<Operation>, op: Operation, base: nat, v: nat)
    requires base <= v <= |log| && ValidLog(initial, log, v)
    requires InRange(op, |TextAt(initial, log, base)|)
    ensures InRange(Fold(op, log, base, v), |TextAt(initial, log, v)|)
    ensures Normalize(Fold(op, log, base, v), |TextAt(initial, log, v)|) == Fold(op, log, base, v)
  {
    if v > base {
      FoldKeepsRange(initial, log, op, base, v - 1);
      TransformKeepsRange(Fold(op, log, base, v - 1), log[v - 1], TextAt(initial, log, v - 1), log[v - 1].ch);
    }
    NormalizeInRange(Fold(op, log, base, v), |TextAt(initial, log, v)|);
  }

  /** A fold keeps the inserted character, and only ever turns a delete into a Noop. */
  lemma {:induction false} FoldKeepsKind(op: Operation, log: seq<Operation>, base: nat, v: nat)
    requires v <= |log|
    ensures var f := Fold(op, log, base, v);
            && (op.kind != Delete ==> f.kind == op.kind && f.ch == op.ch && f.reason == op.reason)
            && (op.kind == Delete ==> f.kind == Delete || (f.kind == Noop && f.reason == ALREADY_DELETED))
            && (Acceptable(op) ==> Acceptable(f))
  {
    if v > base {
      FoldKeepsKind(op, log, base, v - 1);
    }
  }

  /** Where an edit lands depends only on its kind and position. */
  lemma {:induction false} FoldIgnoresCharacter(a: Operation, b: Operation, log: seq<Operation>, base: nat, v: nat)
    requires v <= |log| && a.kind == b.kind == Insert && a.pos == b.pos
    ensures Fold(a, log, base, v).pos == Fold(b, log, base, v).pos
    ensures Fold(a, log, base, v).kind == Fold(b, log, base, v).kind == Insert
  {
    if v > base {
      FoldIgnoresCharacter(a, b, log, base, v - 1);
    }
  }

  function Count(log: seq<Operation>, v: nat, kind: OpKind): nat
    requires v <= |log|
  {
    if v == 0 then 0 else Count(log, v - 1, kind) + (if log[v - 1].kind == kind then 1 else 0)
  }

  /** Conservation of length: initial characters plus logged inserts minus logged deletes. */
  lemma {:induction false} LengthConserved(initial: string, log: seq<Operation>, v: nat)
    requires v <= |log| && ValidLog(initial, log, v)
    ensures |TextAt(initial, log, v)| == |initial| + Count(log, v, Insert) - Count(log, v, Delete)
  {
    if v > 0 {
      LengthConserved(initial, log, v - 1);
    }
  }

  /** Whatever accepted operation the server takes next, its log stays valid. */
  lemma OrderedKeepsLogValid(initial: string, log: seq<Operation>, base: nat, op: Operation)
    requires ValidLog(initial, log, |log|) && Acceptable(op)
    ensures var f := Ordered(initial, log, base, op);
            && Fits(f, |TextAt(initial, log, |log|)|)
            && ValidLog(initial, log + [f], |log| + 1)
            && TextAt(initial, log + [f], |log| + 1) == ApplyOp(TextAt(initial, log, |log|), f)
  {
    var folded, len := Fold(op, log, base, |log|), |TextAt(initial, log, |log|)|;
    FoldKeepsKind(op, log, base, |log|);
    NormalizeInRange(folded, len);
    ValidLogExtend(initial, log, Normalize(folded, len));
  }
}
