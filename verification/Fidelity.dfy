/** What the document does with what an operation meant on the version it is bound to: the intention theorems, for
    the calls the server makes. */
module Fidelity {
  import opened Operations
  import opened Intention
  import opened Survivors
  import opened Orders
  import opened OrderExact
  import opened Messages
  import opened Documents

  /** The identities of the characters of version v. */
  function Ids(d: Doc, v: nat): seq<CharId>
    requires v <= Version(d)
  {
    IdsAt(|d.initial|, Ops(d.log), v)
  }

  lemma IdsGrow(d: Doc, d': Doc, v: nat)
    requires v <= Version(d) && d.initial == d'.initial && Ops(d.log) <= Ops(d'.log)
    ensures |Ops(d'.log)| == Version(d') && Ids(d', v) == Ids(d, v)
  {
    IdsAtPrefix(|d.initial|, Ops(d.log), Ops(d'.log), v);
  }

  /** The document after one accepted operation. */
  function Next(d: Doc, clientId: string, opId: string, base: nat, op: Operation): Doc {
    Process(d, clientId, opId, base, Some(op)).0
  }

  lemma NextEntry(d: Doc, clientId: string, opId: string, base: nat, op: Operation)
    requires ValidDoc(d) && Accepts(d, base) && Fits(op, |TextOf(d, base)|)
    ensures var d', folded := Next(d, clientId, opId, base, op), Fold(op, Ops(d.log), base, Version(d));
            && ValidDoc(d') && d'.initial == d.initial && Ops(d'.log) == Ops(d.log) + [folded]
            && Fits(folded, |Text(d)|)
  {
    ProcessKeepsValid(d, clientId, opId, base, Some(op));
    OpsAppend(d.log, EntryFor(d, clientId, opId, base, op));
    InRangeIsOnlyFolded(d, base, op);
    OrderedKeepsLogValid(d.initial, Ops(d.log), base, op);
  }

  /** Applying the folded delete, or the Noop it has become. */
  lemma DeleteLands(d: Doc, d': Doc, folded: Operation)
    requires d'.initial == d.initial && Ops(d'.log) == Ops(d.log) + [folded] && folded.kind != Insert
    ensures Version(d') == Version(d) + 1 && d'.log[Version(d)].op == folded
    ensures Ids(d', Version(d')) == Splice(Ids(d, Version(d)), folded, [])
  {
    assert |Ops(d'.log)| == |d'.log| && Ops(d'.log)[Version(d)] == folded;
    IdsGrow(d, d', Version(d));
  }

  /** A delete that the gate lets through removes exactly the character at its position in the version it is bound
      to, however much has happened since; it is recorded and acknowledged as a Noop iff that character is
      already gone. */
  lemma ProcessedDelete(d: Doc, clientId: string, opId: string, base: nat, op: Operation)
    requires ValidDoc(d) && Accepts(d, base) && op.kind == Delete && op.pos < |TextOf(d, base)|
    ensures |Ids(d, base)| == |TextOf(d, base)|
    ensures var d', meant := Next(d, clientId, opId, base, op), Ids(d, base)[op.pos];
            && Version(d') == Version(d) + 1
            && Ids(d', Version(d')) == Without(Ids(d, Version(d)), meant)
            && (d'.log[Version(d)].op.kind == Noop <==> meant !in Ids(d, Version(d)))
            && (d'.log[Version(d)].op.kind == Noop ==> d'.log[Version(d)].op.reason == ALREADY_DELETED)
  {
    var d', v := Next(d, clientId, opId, base, op), Version(d);
    var folded := Fold(op, Ops(d.log), base, v);
    NextEntry(d, clientId, opId, base, op);
    FoldKeepsKind(op, Ops(d.log), base, v);
    DeleteIntention(d.initial, Ops(d.log), op, base, v);
    DeleteLands(d, d', folded);
  }

  /** Applying the folded insert gives its character a new identity in the gap. */
  lemma InsertLands(d: Doc, d': Doc, folded: Operation)
    requires ValidDoc(d) && d'.initial == d.initial && Ops(d'.log) == Ops(d.log) + [folded]
    requires folded.kind == Insert && Fits(folded, |Text(d)|)
    ensures Version(d') == Version(d) + 1 && folded.pos <= |Ids(d, Version(d))| && d'.log[Version(d)].op == folded
    ensures Ids(d', Version(d')) == Splice(Ids(d, Version(d)), folded, [CharId.Typed(Version(d'))])
    ensures folded.pos < |Text(d')| && Text(d')[folded.pos] == folded.ch[0]
  {
    assert |Ops(d'.log)| == |d'.log| && Ops(d'.log)[Version(d)] == folded;
    IdsGrow(d, d', Version(d));
    IdsAtLength(d.initial, Ops(d.log), Version(d));
    TextAtPrefix(d.initial, Ops(d.log), Ops(d'.log), Version(d));
  }

  /** An insert that the gate lets through puts its character, under a new identity, between the surviving
      characters of the two sides of its gap in the version it is bound to. */
  lemma ProcessedInsert(d: Doc, clientId: string, opId: string, base: nat, op: Operation)
    requires ValidDoc(d) && Accepts(d, base) && op.kind == Insert && |op.ch| == 1 && op.pos <= |TextOf(d, base)|
    ensures var d' := Next(d, clientId, opId, base, op);
            && Version(d') == Version(d) + 1
            && var p := d'.log[Version(d)].op.pos;
               && p < |Ids(d', Version(d'))| && p < |Text(d')|
               && Ids(d', Version(d'))[p] == CharId.Typed(Version(d')) && Text(d')[p] == op.ch[0]
               && SameCut(Ids(d, base), op.pos, Ids(d', Version(d')), p)
  {
    var d', v := Next(d, clientId, opId, base, op), Version(d);
    var folded := Fold(op, Ops(d.log), base, v);
    NextEntry(d, clientId, opId, base, op);
    FoldKeepsKind(op, Ops(d.log), base, v);
    InsertLands(d, d', folded);
    InsertIntention(d.initial, Ops(d.log), op, base, v);
    NewcomerKeepsCut(Ids(d, base), op.pos, Ids(d, v), folded, CharId.Typed(v + 1), |d.initial|, Ops(d.log), base);
  }

  lemma NewcomerKeepsCut(earlier: seq<CharId>, p: nat, ids: seq<CharId>, f: Operation, x: CharId,
                         n: nat, log: seq<Operation>, base: nat)
    requires f.kind == Insert && f.pos <= |ids| && SameCut(earlier, p, ids, f.pos)
    requires base <= |log| && earlier == IdsAt(n, log, base) && x == CharId.Typed(|log| + 1)
    ensures SameCut(earlier, p, Splice(ids, f, [x]), f.pos)
  {
    if x in earlier {
      IdsAtBorn(n, log, base, x);
    }
    var longer := Splice(ids, f, [x]);
    forall i, j | 0 <= i < |earlier| && 0 <= j < |longer| && earlier[i] == longer[j]
      ensures i < p <==> j < f.pos
    {
      assert j != f.pos;
      assert longer[j] == ids[if j < f.pos then j else j - 1];
    }
  }

  // ----- Rounds of concurrent edits -----

  datatype Submission = Submission(clientId: string, opId: string, op: Operation)

  function OpsOf(subs: seq<Submission>): seq<Operation> {
    seq(|subs|, i requires 0 <= i < |subs| => subs[i].op)
  }

  /** The server takes the submissions one after the other, all written against version `base`. */
  function ProcessRound(d: Doc, base: nat, subs: seq<Submission>): Doc {
    if subs == [] then d
    else
      var last := subs[|subs| - 1];
      Process(ProcessRound(d, base, subs[..|subs| - 1]), last.clientId, last.opId, base, Some(last.op)).0
  }

  ghost predicate Round(d: Doc, subs: seq<Submission>) {
    ValidDoc(d) && forall i :: 0 <= i < |subs| ==> Fits(subs[i].op, |Text(d)|)
  }

  lemma {:induction false} RoundSize(d: Doc, subs: seq<Submission>)
    requires Round(d, subs)
    ensures var d' := ProcessRound(d, Version(d), subs);
            && ValidDoc(d') && d'.initial == d.initial && d'.limit == d.limit
            && Version(d') == Version(d) + Min(|subs|, d.limit + 1)
  {
    if subs != [] {
      var most, last := subs[..|subs| - 1], subs[|subs| - 1];
      RoundSize(d, most);
      ProcessKeepsValid(ProcessRound(d, Version(d), most), last.clientId, last.opId, Version(d), Some(last.op));
    }
  }

  /** The operations of a round that the document takes. */
  function Taken(subs: seq<Submission>, limit: nat): seq<Operation> {
    OpsOf(subs)[..Min(|subs|, limit + 1)]
  }

  lemma TakenOneMore(subs: seq<Submission>, limit: nat)
    requires subs != []
    ensures var most, last := subs[..|subs| - 1], subs[|subs| - 1];
            if |subs| <= limit + 1 then
              && Taken(subs, limit) == Taken(most, limit) + [last.op]
              && (Taken(most, limit) + [last.op])[..|subs| - 1] == Taken(most, limit)
              && |Taken(most, limit)| == |subs| - 1
            else Taken(subs, limit) == Taken(most, limit)
  {
  }

  /** Of a round the document takes exactly the first `limit` + 1 operations, in order: all of it iff it has
      at most one operation more than the history holds. */
  lemma {:induction false} RoundTakenExactly(d: Doc, subs: seq<Submission>)
    requires Round(d, subs)
    ensures var d' := ProcessRound(d, Version(d), subs);
            && ValidDoc(d') && d'.initial == d.initial && d'.limit == d.limit
            && Version(d') == Version(d) + Min(|subs|, d.limit + 1)
            && Ops(d'.log) == SubmitAll(d.initial, Ops(d.log), Version(d), Taken(subs, d.limit))
  {
    RoundSize(d, subs);
    if subs != [] {
      var most, last := subs[..|subs| - 1], subs[|subs| - 1];
      RoundTakenExactly(d, most);
      TakenOneMore(subs, d.limit);
      OneMoreTaken(d, ProcessRound(d, Version(d), most), last, |most|, Taken(most, d.limit));
    }
  }

  lemma OneMoreTaken(d: Doc, before: Doc, last: Submission, n: nat, taken: seq<Operation>)
    requires before.initial == d.initial && before.limit == d.limit > 0
    requires Version(before) == Version(d) + Min(n, d.limit + 1)
    requires Ops(before.log) == SubmitAll(d.initial, Ops(d.log), Version(d), taken) && Acceptable(last.op)
    requires (taken + [last.op])[..|taken|] == taken
    ensures var d' := Process(before, last.clientId, last.opId, Version(d), Some(last.op)).0;
            Ops(d'.log)
            == SubmitAll(d.initial, Ops(d.log), Version(d), if n <= d.limit then taken + [last.op] else taken)
  {
    if n <= d.limit {
      OpsAppend(before.log, EntryFor(before, last.clientId, last.opId, Version(d), last.op));
    }
  }

  lemma RoundIsConcurrent(d: Doc, subs: seq<Submission>)
    requires Round(d, subs)
    ensures Concurrent(d.initial, Ops(d.log), OpsOf(subs))
  {
  }

  /** Whatever order the server takes a round in, the same old characters are left, in the same order, and
      as many deletes take effect; when the round has only deletes, the texts are equal. */
  lemma RoundSurvivors(d: Doc, subs: seq<Submission>, other: seq<Submission>)
    requires Round(d, subs) && |subs| <= d.limit + 1 && multiset(OpsOf(subs)) == multiset(OpsOf(other))
    ensures var one, two := ProcessRound(d, Version(d), subs), ProcessRound(d, Version(d), other);
            var base := Ids(d, Version(d));
            && Only(Ids(one, Version(one)), Members(base))
               == Dropping(base, Picked(base, DeletedPositions(OpsOf(subs))))
            && Only(Ids(two, Version(two)), Members(base)) == Only(Ids(one, Version(one)), Members(base))
            && Count(Ops(one.log), Version(one), Delete) == Count(Ops(two.log), Version(two), Delete)
            && ((forall i :: 0 <= i < |subs| ==> subs[i].op.kind == Delete) ==> Text(one) == Text(two))
  {
    SameSize(OpsOf(subs), OpsOf(other));
    RoundOfSame(d, subs, other);
    RoundTakenExactly(d, subs);
    RoundTakenExactly(d, other);
    assert Taken(subs, d.limit) == OpsOf(subs) && Taken(other, d.limit) == OpsOf(other);
    RoundIsConcurrent(d, subs);
    SurvivorsExact(d.initial, Ops(d.log), OpsOf(subs));
    SurvivorsOrderIndependent(d.initial, Ops(d.log), OpsOf(subs), OpsOf(other));
    if forall i :: 0 <= i < |subs| ==> subs[i].op.kind == Delete {
      assert NoInserts(OpsOf(subs));
      DeletesOrderIndependent(d.initial, Ops(d.log), OpsOf(subs), OpsOf(other));
    }
  }

  lemma SameSize(ops: seq<Operation>, other: seq<Operation>)
    requires multiset(ops) == multiset(other)
    ensures |ops| == |other|
  {
    assert |multiset(ops)| == |ops| && |multiset(other)| == |other|;
  }

  lemma RoundOfSame(d: Doc, subs: seq<Submission>, other: seq<Submission>)
    requires Round(d, subs) && multiset(OpsOf(subs)) == multiset(OpsOf(other))
    ensures Round(d, other)
  {
    forall i | 0 <= i < |other|
      ensures Fits(other[i].op, |Text(d)|)
    {
      assert OpsOf(other)[i] in multiset(OpsOf(other));
      assert OpsOf(other)[i] in OpsOf(subs);
    }
  }

  /** Any order of the operations of a round, by whomever they are submitted, gives the same text. */
  ghost predicate RoundOrderFree(d: Doc, subs: seq<Submission>) {
    forall other :: multiset(OpsOf(other)) == multiset(OpsOf(subs)) ==>
                      Text(ProcessRound(d, Version(d), other)) == Text(ProcessRound(d, Version(d), subs))
  }

  lemma RoundOutcome(d: Doc, subs: seq<Submission>)
    requires Round(d, subs) && |subs| <= d.limit + 1
    ensures Text(ProcessRound(d, Version(d), subs)) == Outcome(d.initial, Ops(d.log), OpsOf(subs))
  {
    RoundTakenExactly(d, subs);
    assert Taken(subs, d.limit) == OpsOf(subs);
    assert |Ops(d.log)| == Version(d);
  }

  lemma RoundPermuted(d: Doc, subs: seq<Submission>, other: seq<Submission>)
    requires Round(d, subs) && |subs| <= d.limit + 1 && multiset(OpsOf(other)) == multiset(OpsOf(subs))
    ensures Round(d, other) && Text(ProcessRound(d, Version(d), other)) == Outcome(d.initial, Ops(d.log), OpsOf(other))
  {
    SameSize(OpsOf(subs), OpsOf(other));
    RoundOfSame(d, subs, other);
    RoundOutcome(d, other);
  }

  function Submitted(ops: seq<Operation>): seq<Submission> {
    seq(|ops|, i requires 0 <= i < |ops| => Submission("", "", ops[i]))
  }

  /** The order in which a round within the limit is taken does not matter iff between the gaps of any two
      inserts of different characters some character is left. */
  lemma RoundOrderFreeExactly(d: Doc, subs: seq<Submission>)
    requires Round(d, subs) && |subs| <= d.limit + 1
    ensures RoundOrderFree(d, subs) <==> Separated(OpsOf(subs))
  {
    var ops := OpsOf(subs);
    RoundIsConcurrent(d, subs);
    RoundPermuted(d, subs, subs);
    if Separated(ops) {
      forall other | multiset(OpsOf(other)) == multiset(ops)
        ensures Text(ProcessRound(d, Version(d), other)) == Text(ProcessRound(d, Version(d), subs))
      {
        RoundPermuted(d, subs, other);
        SeparatedSuffices(d.initial, Ops(d.log), ops, OpsOf(other));
      }
    } else {
      var i, j :| 0 <= i < |ops| && 0 <= j < |ops| && Clash(ops[i], ops[j]) && AllDeleted(ops, ops[i].pos, ops[j].pos);
      var one, two := SeparatedNeeded(d.initial, Ops(d.log), ops, ops[i], ops[j]);
      assert OpsOf(Submitted(one)) == one && OpsOf(Submitted(two)) == two;
      RoundPermuted(d, subs, Submitted(one));
      RoundPermuted(d, subs, Submitted(two));
      assert Text(ProcessRound(d, Version(d), Submitted(one))) != Text(ProcessRound(d, Version(d), Submitted(two)));
    }
  }

  const A_FIRST := Operation(Insert, 0, "a", "")
  const B_AFTER := Operation(Insert, 1, "b", "")
  const CUT := Operation(Delete, 0, "", "")

  /** More does not hold. With inserts in the round the text depends on the order even where the gaps
      differ: once the character between two gaps is deleted, the inserts tie. */
  lemma MixedRoundsDependOnOrder()
    ensures var one := SubmitAll("x", [], 0, [CUT, A_FIRST, B_AFTER]);
            var two := SubmitAll("x", [], 0, [CUT, B_AFTER, A_FIRST]);
            |one| == |two| == 3 && TextAt("x", one, 3) == "ab" && TextAt("x", two, 3) == "ba"
  {
    ThenA();
    ThenB();
  }

  lemma FirstIsCut()
    ensures SubmitAll("x", [], 0, [CUT]) == [CUT]
  {
    assert [CUT][..0] == [];
    assert SubmitAll("x", [], 0, []) == [];
    assert TextAt("x", [], 0) == "x" && Fold(CUT, [], 0, 0) == CUT;
  }

  lemma CutText()
    ensures TextAt("x", [CUT], 1) == ""
  {
    assert TextAt("x", [CUT], 0) == "x";
  }

  lemma ThenA()
    ensures SubmitAll("x", [], 0, [CUT, A_FIRST, B_AFTER]) == [CUT, A_FIRST, B_AFTER]
    ensures TextAt("x", [CUT, A_FIRST, B_AFTER], 3) == "ab"
  {
    CutText();
    FirstIsCut();
    ThenOne(A_FIRST, A_FIRST);
    ThenTwo(A_FIRST, A_FIRST, B_AFTER, B_AFTER.(pos := 0), B_AFTER);
  }

  lemma ThenB()
    ensures SubmitAll("x", [], 0, [CUT, B_AFTER, A_FIRST]) == [CUT, B_AFTER.(pos := 0), A_FIRST.(pos := 1)]
    ensures TextAt("x", [CUT, B_AFTER.(pos := 0), A_FIRST.(pos := 1)], 3) == "ba"
  {
    CutText();
    FirstIsCut();
    ThenOne(B_AFTER, B_AFTER.(pos := 0));
    ThenTwo(B_AFTER, B_AFTER.(pos := 0), A_FIRST, A_FIRST, A_FIRST.(pos := 1));
  }

  lemma ThenOne(op: Operation, placed: Operation)
    requires op.kind == Insert && |op.ch| == 1 && op.pos <= 1 && placed == op.(pos := 0)
    requires SubmitAll("x", [], 0, [CUT]) == [CUT] && TextAt("x", [CUT], 1) == ""
    ensures SubmitAll("x", [], 0, [CUT, op]) == [CUT, placed] && TextAt("x", [CUT, placed], 2) == op.ch
  {
    assert Fold(op, [CUT], 0, 0) == op && Fold(op, [CUT], 0, 1) == Transform(op, CUT) == placed;
    assert [CUT, op][..1] == [CUT];
    TextAtPrefix("x", [CUT], [CUT, placed], 1);
  }

  lemma ThenTwo(first: Operation, one: Operation, second: Operation, moved: Operation, two: Operation)
    requires one == first.(pos := 0) && one.kind == Insert && |one.ch| == 1 && second.kind == Insert && |second.ch| == 1
    requires second.pos <= 1 && moved == second.(pos := 0) && two == second.(pos := 1)
    requires SubmitAll("x", [], 0, [CUT, first]) == [CUT, one] && TextAt("x", [CUT, one], 2) == one.ch
    ensures SubmitAll("x", [], 0, [CUT, first, second]) == [CUT, one, two]
    ensures TextAt("x", [CUT, one, two], 3) == one.ch + second.ch
  {
    var log := [CUT, one];
    assert Fold(second, log, 0, 0) == second && Fold(second, log, 0, 1) == Transform(second, CUT) == moved;
    assert Fold(second, log, 0, 2) == Transform(moved, one) == two;
    assert [CUT, first, second][..2] == [CUT, first];
    TextAtPrefix("x", log, [CUT, one, two], 2);
    assert ApplyOp(one.ch, two) == one.ch + second.ch;
  }
}
