/** Separated rounds are exactly the ones whose order does not matter. */
module OrderExact {
  import opened Operations
  import opened Intention
  import opened Survivors
  import opened Permutations
  import opened Orders

  // ----- Deletes first -----

  predicate NoInserts(ops: seq<Operation>) {
    forall i :: 0 <= i < |ops| ==> ops[i].kind != Insert
  }

  predicate NoDeletes(ops: seq<Operation>) {
    forall i :: 0 <= i < |ops| ==> ops[i].kind != Delete
  }

  /** Gaps of the base text with nothing left between them are one gap of the tags. */
  lemma GapsEqual(tags: seq<Tag>, x: nat, y: nat, p: nat, q: nat)
    requires forall j :: 0 <= j < |tags| ==> tags[j].Old? && !(x <= tags[j].index < y)
    requires x <= y && p <= |tags| && q <= |tags| && CutAt(tags, x, p) && CutAt(tags, y, q)
    ensures p == q
  {
    assert forall j :: 0 <= j < |tags| ==> tags[j] == Old(tags[j].index);
    assert forall j :: 0 <= j < |tags| ==> ((j < p <==> tags[j].index < x) && (j < q <==> tags[j].index < y));
    assert p < |tags| ==> tags[p].Old?;
    assert q < |tags| ==> tags[q].Old?;
  }

  /** Once only deletes have been taken, two gaps with nothing left between them meet. */
  lemma GapsMeet(initial: string, log: seq<Operation>, dels: seq<Operation>, x: Operation, y: Operation)
    requires Concurrent(initial, log, dels) && NoInserts(dels)
    requires Fits(x, |TextAt(initial, log, |log|)|) && Fits(y, |TextAt(initial, log, |log|)|)
    requires x.kind == y.kind == Insert && x.pos <= y.pos && AllDeleted(dels, x.pos, y.pos)
    ensures Last(initial, log, dels + [x]).pos == Last(initial, log, dels + [y]).pos
  {
    GapOf(initial, log, dels, x);
    GapOf(initial, log, dels, y);
    OnlyOldLeft(initial, log, dels, x.pos, y.pos);
    GapsEqual(Tags(initial, log, dels), x.pos, y.pos,
              Last(initial, log, dels + [x]).pos, Last(initial, log, dels + [y]).pos);
  }

  lemma OnlyOldLeft(initial: string, log: seq<Operation>, dels: seq<Operation>, x: nat, y: nat)
    requires Concurrent(initial, log, dels) && NoInserts(dels) && AllDeleted(dels, x, y)
    ensures var tags := Tags(initial, log, dels);
            forall j :: 0 <= j < |tags| ==> tags[j].Old? && !(x <= tags[j].index < y)
  {
    var tags := Tags(initial, log, dels);
    OldLeft(initial, log, dels);
    TagsSound(initial, log, dels);
    forall j | 0 <= j < |tags| ensures tags[j].Old? && !(x <= tags[j].index < y) {
      assert tags[j] in tags && Sound(tags[j], |TextAt(initial, log, |log|)|, dels);
    }
  }

  lemma GapOf(initial: string, log: seq<Operation>, dels: seq<Operation>, x: Operation)
    requires Concurrent(initial, log, dels) && Fits(x, |TextAt(initial, log, |log|)|) && x.kind == Insert
    ensures var tags, last := Tags(initial, log, dels), Last(initial, log, dels + [x]);
            last.kind == Insert && last.ch == x.ch && last.pos <= |tags| && CutAt(tags, x.pos, last.pos)
  {
    assert (dels + [x])[..|dels|] == dels;
    LastCuts(initial, log, dels + [x]);
    LastKind(initial, log, dels + [x]);
  }

  // ----- Two inserts that meet -----

  /** The logs have the same operations at the same places; only what is typed differs. */
  ghost predicate SameShape(one: seq<Operation>, two: seq<Operation>) {
    |one| == |two| && forall k :: 0 <= k < |one| ==> one[k].kind == two[k].kind && one[k].pos == two[k].pos
  }

  lemma {:induction false} FoldByShape(op: Operation, one: seq<Operation>, two: seq<Operation>, base: nat, v: nat)
    requires SameShape(one, two) && v <= |one|
    ensures Fold(op, one, base, v) == Fold(op, two, base, v)
  {
    if v > base {
      FoldByShape(op, one, two, base, v - 1);
    }
  }

  lemma {:induction false} IdsByShape(n: nat, one: seq<Operation>, two: seq<Operation>, v: nat)
    requires SameShape(one, two) && v <= |one|
    ensures IdsAt(n, one, v) == IdsAt(n, two, v)
  {
    if v > 0 {
      IdsByShape(n, one, two, v - 1);
    }
  }

  lemma {:induction false} SubmitConcat(initial: string, log: seq<Operation>, base: nat, a: seq<Operation>,
                                        b: seq<Operation>)
    ensures SubmitAll(initial, log, base, a + b) == SubmitAll(initial, SubmitAll(initial, log, base, a), base, b)
    decreases b
  {
    if b == [] {
      assert a + b == a;
    } else {
      SubmitConcat(initial, log, base, a, b[..|b| - 1]);
      assert (a + b)[..|a + b| - 1] == a + b[..|b| - 1];
    }
  }

  /** Logs of one shape that agree from `from` on. */
  ghost predicate Alike(initial: string, one: seq<Operation>, two: seq<Operation>, from: nat) {
    && SameShape(one, two) && ValidLog(initial, one, |one|) && ValidLog(initial, two, |two|)
    && forall k :: from <= k < |one| ==> one[k] == two[k]
  }

  /** What follows is recorded alike on logs of the same shape, and extends them alike. */
  lemma {:induction false} RestByShape(initial: string, one: seq<Operation>, two: seq<Operation>, base: nat,
                                       rest: seq<Operation>)
    requires Alike(initial, one, two, |one|) && base <= |one|
    requires forall i :: 0 <= i < |rest| ==> Acceptable(rest[i])
    ensures var a, b := SubmitAll(initial, one, base, rest), SubmitAll(initial, two, base, rest);
            Alike(initial, a, b, |one|) && one <= a && two <= b && |a| == |one| + |rest|
  {
    if rest != [] {
      var most, op := rest[..|rest| - 1], rest[|rest| - 1];
      RestByShape(initial, one, two, base, most);
      var a, b := SubmitAll(initial, one, base, most), SubmitAll(initial, two, base, most);
      LastByShape(initial, a, b, base, op);
      AlikeMore(initial, a, b, |one|, Ordered(initial, a, base, op));
    }
  }

  lemma AlikeMore(initial: string, a: seq<Operation>, b: seq<Operation>, from: nat, op: Operation)
    requires Alike(initial, a, b, from) && ValidLog(initial, a + [op], |a| + 1) && ValidLog(initial, b + [op], |b| + 1)
    ensures Alike(initial, a + [op], b + [op], from)
  {
  }

  lemma LastByShape(initial: string, a: seq<Operation>, b: seq<Operation>, base: nat, op: Operation)
    requires SameShape(a, b) && base <= |a| && ValidLog(initial, a, |a|) && ValidLog(initial, b, |b|) && Acceptable(op)
    ensures Ordered(initial, a, base, op) == Ordered(initial, b, base, op)
    ensures ValidLog(initial, a + [Ordered(initial, a, base, op)], |a| + 1)
    ensures ValidLog(initial, b + [Ordered(initial, b, base, op)], |b| + 1)
  {
    FoldByShape(op, a, b, base, |a|);
    IdsByShape(|initial|, a, b, |a|);
    IdsAtLength(initial, a, |a|);
    IdsAtLength(initial, b, |b|);
    OrderedKeepsLogValid(initial, a, base, op);
    OrderedKeepsLogValid(initial, b, base, op);
  }

  lemma TwoConcurrent(initial: string, log: seq<Operation>, dels: seq<Operation>, x: Operation, y: Operation)
    requires Concurrent(initial, log, dels)
    requires Fits(x, |TextAt(initial, log, |log|)|) && Fits(y, |TextAt(initial, log, |log|)|)
    ensures Concurrent(initial, log, dels + [x]) && Concurrent(initial, log, dels + [x] + [y])
  {
  }

  lemma RangeOfLast(initial: string, log: seq<Operation>, ops: seq<Operation>, op: Operation)
    requires Concurrent(initial, log, ops) && Fits(op, |TextAt(initial, log, |log|)|)
    ensures var all := SubmitAll(initial, log, |log|, ops);
            Last(initial, log, ops + [op]) == Fold(op, all, |log|, |all|)
  {
    var all := SubmitAll(initial, log, |log|, ops);
    assert (ops + [op])[..|ops|] == ops;
    SubmitAllValid(initial, log, ops);
    TextAtPrefix(initial, log, all, |log|);
    FoldKeepsRange(initial, all, op, |log|, |all|);
  }

  lemma LoggedOne(initial: string, log: seq<Operation>, dels: seq<Operation>, x: Operation)
    ensures SubmitAll(initial, log, |log|, dels + [x])
            == SubmitAll(initial, log, |log|, dels) + [Last(initial, log, dels + [x])]
  {
    assert (dels + [x])[..|dels|] == dels;
  }

  lemma SecondFold(y: Operation, all: seq<Operation>, first: Operation, base: nat)
    requires base <= |all| && first.kind == Insert
    requires Fold(y, all, base, |all|).kind == Insert && Fold(y, all, base, |all|).pos == first.pos
    ensures Fold(y, all + [first], base, |all| + 1) == Fold(y, all, base, |all|).(pos := first.pos + 1)
  {
    FoldPrefix(y, all, all + [first], base, |all|);
  }

  /** Where gaps meet, the insert that comes second goes right of the first. */
  lemma SecondGoesRight(initial: string, log: seq<Operation>, dels: seq<Operation>, x: Operation, y: Operation)
    requires Concurrent(initial, log, dels) && x.kind == y.kind == Insert
    requires Fits(x, |TextAt(initial, log, |log|)|) && Fits(y, |TextAt(initial, log, |log|)|)
    requires Last(initial, log, dels + [x]).pos == Last(initial, log, dels + [y]).pos
    ensures var last := Last(initial, log, dels + [x] + [y]);
            last.kind == Insert && last.ch == y.ch && last.pos == Last(initial, log, dels + [x]).pos + 1
  {
    RangeOfLast(initial, log, dels, y);
    GapOf(initial, log, dels, x);
    GapOf(initial, log, dels, y);
    TwoConcurrent(initial, log, dels, x, y);
    RangeOfLast(initial, log, dels + [x], y);
    SubmitAllValid(initial, log, dels);
    LoggedOne(initial, log, dels, x);
    SecondFold(y, SubmitAll(initial, log, |log|, dels), Last(initial, log, dels + [x]), |log|);
  }

  /** The log after the deletes and the two inserts. */
  lemma TwoLogged(initial: string, log: seq<Operation>, dels: seq<Operation>, x: Operation, y: Operation)
    ensures SubmitAll(initial, log, |log|, dels + [x] + [y])
            == SubmitAll(initial, log, |log|, dels)
               + [Last(initial, log, dels + [x])] + [Last(initial, log, dels + [x] + [y])]
  {
    LoggedOne(initial, log, dels, x);
    LoggedOne(initial, log, dels + [x], y);
  }

  /** Two inserts next to each other, in either order of arrival. */
  ghost predicate Swapped(one: seq<Operation>, two: seq<Operation>, n: nat, x: Operation, y: Operation) {
    && SameShape(one, two) && |one| == n + 2
    && one[n].kind == one[n + 1].kind == Insert && one[n].ch == x.ch && two[n].ch == y.ch
  }

  lemma SwappedLogs(all: seq<Operation>, x: Operation, y: Operation, x1: Operation, y2: Operation, y1: Operation,
                    x2: Operation)
    requires x1.kind == y2.kind == y1.kind == x2.kind == Insert && x1.ch == x.ch && y1.ch == y.ch
    requires x1.pos == y1.pos && y2.pos == x2.pos
    ensures Swapped(all + [x1] + [y2], all + [y1] + [x2], |all|, x, y)
  {
  }

  lemma MeetingLogs(initial: string, log: seq<Operation>, dels: seq<Operation>, x: Operation, y: Operation)
    requires Concurrent(initial, log, dels) && x.kind == y.kind == Insert
    requires Fits(x, |TextAt(initial, log, |log|)|) && Fits(y, |TextAt(initial, log, |log|)|)
    requires Last(initial, log, dels + [x]).pos == Last(initial, log, dels + [y]).pos
    ensures var one := SubmitAll(initial, log, |log|, dels + [x] + [y]);
            var two := SubmitAll(initial, log, |log|, dels + [y] + [x]);
            Swapped(one, two, |log| + |dels|, x, y)
  {
    SubmitAllValid(initial, log, dels);
    TwoLogged(initial, log, dels, x, y);
    TwoLogged(initial, log, dels, y, x);
    GapOf(initial, log, dels, x);
    GapOf(initial, log, dels, y);
    SecondGoesRight(initial, log, dels, x, y);
    SecondGoesRight(initial, log, dels, y, x);
    SwappedLogs(SubmitAll(initial, log, |log|, dels), x, y,
                Last(initial, log, dels + [x]), Last(initial, log, dels + [x] + [y]),
                Last(initial, log, dels + [y]), Last(initial, log, dels + [y] + [x]));
  }

  // ----- The two outcomes differ -----

  lemma {:induction false} NothingDeleted(initial: string, log: seq<Operation>, base: nat, rest: seq<Operation>)
    requires NoDeletes(rest) && base <= |log|
    ensures var all := SubmitAll(initial, log, base, rest);
            log <= all && forall k :: |log| <= k < |all| ==> all[k].kind != Delete
  {
    if rest != [] {
      var most, op := rest[..|rest| - 1], rest[|rest| - 1];
      NothingDeleted(initial, log, base, most);
      FoldKeepsKind(op, SubmitAll(initial, log, base, most), base, |SubmitAll(initial, log, base, most)|);
    }
  }

  lemma {:induction false} StaysTyped(n: nat, log: seq<Operation>, u: nat, v: nat)
    requires 0 < u <= v <= |log| && log[u - 1].kind == Insert && forall k :: u <= k < v ==> log[k].kind != Delete
    ensures CharId.Typed(u) in IdsAt(n, log, v)
  {
    if u < v {
      StaysTyped(n, log, u, v - 1);
      StaysIn(IdsAt(n, log, v - 1), log[v - 1], CharId.Typed(u), CharId.Typed(v));
    } else {
      assert IdsAt(n, log, u)[Min(log[u - 1].pos, |IdsAt(n, log, u - 1)|)] == CharId.Typed(u);
    }
  }

  lemma StaysIn(ids: seq<CharId>, op: Operation, id: CharId, x: CharId)
    requires id in ids && op.kind != Delete
    ensures id in Splice(ids, op, [x])
  {
    var j :| 0 <= j < |ids| && ids[j] == id;
    if op.kind == Insert {
      assert Splice(ids, op, [x])[if j < op.pos then j else j + 1] == id;
    }
  }

  lemma DifferentLetter(initial: string, a: seq<Operation>, b: seq<Operation>, u: nat)
    requires Alike(initial, a, b, |a|) && 0 < u <= |a| && a[u - 1].kind == Insert && a[u - 1].ch != b[u - 1].ch
    requires forall k :: u <= k < |a| ==> a[k].kind != Delete
    ensures TextAt(initial, a, |a|) != TextAt(initial, b, |b|)
  {
    var n := |initial|;
    StaysTyped(n, a, u, |a|);
    IdsByShape(n, a, b, |a|);
    IdsAtLength(initial, a, |a|);
    IdsAtLength(initial, b, |b|);
    var j :| 0 <= j < |IdsAt(n, a, |a|)| && IdsAt(n, a, |a|)[j] == CharId.Typed(u);
    IdsNameCharacters(initial, a, |a|, j);
    IdsNameCharacters(initial, b, |b|, j);
    assert a[u - 1].ch[0] != b[u - 1].ch[0] by {
      assert a[u - 1].ch == [a[u - 1].ch[0]] && b[u - 1].ch == [b[u - 1].ch[0]];
    }
  }

  // ----- Deletes first, then the two, then the rest -----

  function Deletes(ops: seq<Operation>): seq<Operation> {
    if ops == [] then []
    else
      var earlier, last := Deletes(ops[..|ops| - 1]), ops[|ops| - 1];
      if last.kind == Delete then earlier + [last] else earlier
  }

  function Others(ops: seq<Operation>): seq<Operation> {
    if ops == [] then []
    else
      var earlier, last := Others(ops[..|ops| - 1]), ops[|ops| - 1];
      if last.kind == Delete then earlier else earlier + [last]
  }

  lemma {:induction false} DeletesAndOthers(ops: seq<Operation>)
    ensures multiset(Deletes(ops)) + multiset(Others(ops)) == multiset(ops)
    ensures forall op :: op in Deletes(ops) <==> op in ops && op.kind == Delete
    ensures forall op :: op in Others(ops) <==> op in ops && op.kind != Delete
  {
    if ops != [] {
      DeletesAndOthers(ops[..|ops| - 1]);
      DropLast(ops);
      assert ops == ops[..|ops| - 1] + [ops[|ops| - 1]];
    }
  }

  /** The round with the deletes first and two chosen operations next. */
  lemma Rearranged(ops: seq<Operation>, x: Operation, y: Operation) returns (dels: seq<Operation>, rest: seq<Operation>)
    requires x in ops && y in ops && x.kind == y.kind == Insert && x != y
    ensures multiset(dels + [x] + [y] + rest) == multiset(ops) == multiset(dels + [y] + [x] + rest)
    ensures (forall op :: op in dels <==> op in ops && op.kind == Delete)
    ensures forall op :: op in rest ==> op in ops && op.kind != Delete
  {
    DeletesAndOthers(ops);
    dels := Deletes(ops);
    var l, r := FindOne(Others(ops), x);
    assert y in l + r by {
      assert y in Others(ops) && Others(ops) == l + [x] + r;
    }
    var l', r' := FindOne(l + r, y);
    rest := l' + r';
    assert multiset(Others(ops)) == multiset(rest) + multiset{y} + multiset{x};
    assert forall op :: op in rest ==> op in Others(ops) by {
      assert forall op :: op in rest ==> op in l + r;
    }
  }

  lemma SameDeleted(ops: seq<Operation>, dels: seq<Operation>)
    requires forall op :: op in dels <==> op in ops && op.kind == Delete
    ensures NoInserts(dels) && DeletedPositions(dels) == DeletedPositions(ops)
  {
    assert forall i :: 0 <= i < |dels| ==> dels[i] in dels;
    DeletedPositionsByMember(ops);
    DeletedPositionsByMember(dels);
  }

  lemma SomeFit(initial: string, log: seq<Operation>, ops: seq<Operation>, some: seq<Operation>)
    requires Concurrent(initial, log, ops) && forall op :: op in some ==> op in ops
    ensures Concurrent(initial, log, some)
  {
    forall i | 0 <= i < |some| ensures Fits(some[i], |TextAt(initial, log, |log|)|) {
      assert some[i] in ops;
    }
  }

  /** One order of the clash against the other. */
  lemma ClashMatters(initial: string, log: seq<Operation>, dels: seq<Operation>, x: Operation, y: Operation,
                     rest: seq<Operation>)
    requires Concurrent(initial, log, dels) && Concurrent(initial, log, rest) && NoInserts(dels) && NoDeletes(rest)
    requires Fits(x, |TextAt(initial, log, |log|)|) && Fits(y, |TextAt(initial, log, |log|)|)
    requires Clash(x, y) && AllDeleted(dels, x.pos, y.pos)
    ensures Outcome(initial, log, dels + [x] + [y] + rest) != Outcome(initial, log, dels + [y] + [x] + rest)
  {
    var v := |log|;
    var one, two := SubmitAll(initial, log, v, dels + [x] + [y]), SubmitAll(initial, log, v, dels + [y] + [x]);
    GapsMeet(initial, log, dels, x, y);
    MeetingLogs(initial, log, dels, x, y);
    TwoConcurrent(initial, log, dels, x, y);
    TwoConcurrent(initial, log, dels, y, x);
    SubmitAllValid(initial, log, dels + [x] + [y]);
    SubmitAllValid(initial, log, dels + [y] + [x]);
    RestByShape(initial, one, two, v, rest);
    NothingDeleted(initial, one, v, rest);
    SubmitConcat(initial, log, v, dels + [x] + [y], rest);
    SubmitConcat(initial, log, v, dels + [y] + [x], rest);
    DifferByClash(initial, one, two, SubmitAll(initial, one, v, rest), SubmitAll(initial, two, v, rest),
                  |log| + |dels|, x, y);
  }

  lemma DifferByClash(initial: string, one: seq<Operation>, two: seq<Operation>, a: seq<Operation>, b: seq<Operation>,
                      n: nat, x: Operation, y: Operation)
    requires Swapped(one, two, n, x, y) && x.ch != y.ch && one <= a && two <= b && Alike(initial, a, b, |one|)
    requires forall k :: |one| <= k < |a| ==> a[k].kind != Delete
    ensures TextAt(initial, a, |a|) != TextAt(initial, b, |b|)
  {
    assert a[n] == one[n] && a[n + 1] == one[n + 1] && b[n] == two[n];
    DifferentLetter(initial, a, b, n + 1);
  }

  lemma SeparatedNeeded(initial: string, log: seq<Operation>, ops: seq<Operation>, x: Operation, y: Operation)
      returns (one: seq<Operation>, two: seq<Operation>)
    requires Concurrent(initial, log, ops) && x in ops && y in ops && Clash(x, y) && AllDeleted(ops, x.pos, y.pos)
    ensures multiset(one) == multiset(two) == multiset(ops) && Outcome(initial, log, one) != Outcome(initial, log, two)
  {
    var dels, rest := Rearranged(ops, x, y);
    SameDeleted(ops, dels);
    SomeFit(initial, log, ops, dels);
    SomeFit(initial, log, ops, rest);
    SomeFit(initial, log, ops, [x, y]);
    assert [x, y][0] == x && [x, y][1] == y;
    assert NoDeletes(rest) by {
      assert forall i :: 0 <= i < |rest| ==> rest[i] in rest;
    }
    ClashMatters(initial, log, dels, x, y, rest);
    one, two := dels + [x] + [y] + rest, dels + [y] + [x] + rest;
  }

  /** The order of a round of concurrent edits does not matter, exactly: all orders give one text iff between
      the gaps of any two inserts of different characters some character is left. */
  lemma OrderFreeExactly(initial: string, log: seq<Operation>, ops: seq<Operation>)
    requires Concurrent(initial, log, ops)
    ensures OrderFree(initial, log, ops) <==> Separated(ops)
  {
    if Separated(ops) {
      forall other | multiset(other) == multiset(ops)
        ensures Outcome(initial, log, other) == Outcome(initial, log, ops)
      {
        SeparatedSuffices(initial, log, ops, other);
      }
    } else {
      var i, j :| 0 <= i < |ops| && 0 <= j < |ops| && Clash(ops[i], ops[j]) && AllDeleted(ops, ops[i].pos, ops[j].pos);
      var one, two := SeparatedNeeded(initial, log, ops, ops[i], ops[j]);
    }
  }

  /** When every edit of the round is a delete, the text does not depend on the order. */
  lemma DeletesOrderIndependent(initial: string, log: seq<Operation>, ops: seq<Operation>, other: seq<Operation>)
    requires Concurrent(initial, log, ops) && multiset(ops) == multiset(other) && NoInserts(ops)
    ensures Outcome(initial, log, ops) == Outcome(initial, log, other)
  {
    SeparatedSuffices(initial, log, ops, other);
  }
}
