/** A polite run in which what a user typed as "ab" becomes "ba": the second edit had to wait, and was sent as
    it was typed on a version where it no longer pointed behind the first. */
module Drift {
  import opened Operations
  import opened Intention
  import opened Messages
  import opened Documents
  import opened Clients
  import opened Systems
  import opened PoliteRuns
  import opened Carrying
  import opened QueuedEdits
  import opened Rebasing

  const A := Operation(Insert, 0, "a", "")
  const B := Operation(Insert, 1, "b", "")
  const Q := Operation(Insert, 0, "q", "")

  const BOTH_JOIN: seq<Step> := [Join("u1"), Join("u2")]
  const U2_LOADS: seq<Step> := [Deliver(0), Deliver(0)]
  const U1_LOADS: seq<Step> := [Deliver(1), Deliver(1)]
  const ALL_TYPE: seq<Step> := [TypeOp(1, A), TypeOp(1, B), TypeOp(0, Q)]
  const TWO_SERVED: seq<Step> := [Serve(0), Serve(1)]
  const U1_HEARS: seq<Step> := [Deliver(1), Deliver(1), Serve(1)]

  function LoggedQ(): HistoryEntry { HistoryEntry(1, "u2", OpId("u2", 1), 0, Q, Q) }

  function LoggedA(): HistoryEntry { HistoryEntry(2, "u1", OpId("u1", 1), 0, A, A.(pos := 1)) }

  function LoggedB(): HistoryEntry { HistoryEntry(3, "u1", OpId("u1", 2), 2, B, B) }

  function DocumentWith(log: seq<HistoryEntry>): Doc { Doc("", 10, log) }

  function U2Typed(): Client {
    NewClient("u2").(nextOpNumber := 2, inflight := Some(Pending(OpId("u2", 1), Q, 0)),
                     outbox := [SubmitOp("u2", OpId("u2", 1), 0, Some(Q))])
  }

  function U1Typed(): Client {
    NewClient("u1").(nextOpNumber := 3, inflight := Some(Pending(OpId("u1", 1), A, 0)),
                     queue := [Pending(OpId("u1", 2), B, -1)], outbox := [SubmitOp("u1", OpId("u1", 1), 0, Some(A))])
  }

  function U1Sent(): Client {
    U1Typed().(content := "qa", version := 2, inflight := Some(Pending(OpId("u1", 2), B, 2)), queue := [],
               outbox := [SubmitOp("u1", OpId("u1", 1), 0, Some(A)), SubmitOp("u1", OpId("u1", 2), 2, Some(B))])
  }

  predicate Looks(slot: Slot, id: string, c: Client, served: nat, synced: bool, down: seq<ServerMessage>) {
    slot.id == id && slot.client == c && slot.served == served && slot.synced == synced && slot.down == down
  }

  // ----- The run, a few steps at a time -----

  lemma Joins() returns (s: System)
    ensures PoliteRun(Start("", 10), BOTH_JOIN) && IsRun(Start("", 10), BOTH_JOIN)
    ensures s == After(Start("", 10), BOTH_JOIN)
    ensures s.doc == DocumentWith([]) && |s.slots| == 2
    ensures Looks(s.slots[0], "u2", NewClient("u2"), 0, false, [Welcome("u2"), DocState(0, 0, Some(""))])
    ensures Looks(s.slots[1], "u1", NewClient("u1"), 0, false, [Welcome("u1"), DocState(0, 0, Some(""))])
  {
    var s0 := Start("", 10);
    assert "u1" !in IdsOf(s0.slots);
    var s1 := Perform(s0, Join("u1"));
    assert s1.slots == [Newcomer(s0.doc, "u1", "u1")];
    assert "u2" !in IdsOf(s1.slots);
    PoliteSteps(s0, Join("u1"), Join("u2"));
    s := After(s0, BOTH_JOIN);
    assert s.slots == [Newcomer(s0.doc, "u2", "u2"), Newcomer(s0.doc, "u1", "u1")];
  }

  /** A fresh client takes its name and the empty document. */
  lemma Loads(s: System, i: nat, name: string) returns (t: System)
    requires s.doc == DocumentWith([]) && |s.slots| == 2 && i < 2 && name != ""
    requires Looks(s.slots[i], name, NewClient(name), 0, false, [Welcome(name), DocState(0, 0, Some(""))])
    ensures PoliteRun(s, [Deliver(i), Deliver(i)]) && IsRun(s, [Deliver(i), Deliver(i)])
    ensures t == After(s, [Deliver(i), Deliver(i)])
    ensures t.doc == s.doc && |t.slots| == 2 && t.slots[1 - i] == s.slots[1 - i]
    ensures Looks(t.slots[i], name, NewClient(name), 0, true, [])
  {
    PoliteSteps(s, Deliver(i), Deliver(i));
    t := After(s, [Deliver(i), Deliver(i)]);
  }

  lemma Types(s: System) returns (t: System)
    requires s.doc == DocumentWith([]) && |s.slots| == 2
    requires Looks(s.slots[0], "u2", NewClient("u2"), 0, true, [])
    requires Looks(s.slots[1], "u1", NewClient("u1"), 0, true, [])
    ensures PoliteRun(s, ALL_TYPE) && IsRun(s, ALL_TYPE) && t == After(s, ALL_TYPE) && t.doc == s.doc && |t.slots| == 2
    ensures Looks(t.slots[0], "u2", U2Typed(), 0, true, []) && Looks(t.slots[1], "u1", U1Typed(), 0, true, [])
  {
    PoliteThree(s, TypeOp(1, A), TypeOp(1, B), TypeOp(0, Q));
    t := After(s, ALL_TYPE);
  }

  lemma QIsLogged()
    ensures Process(DocumentWith([]), "u2", OpId("u2", 1), 0, Some(Q))
            == (DocumentWith([LoggedQ()]), Processed(AckFor(LoggedQ()), RemoteFor(LoggedQ()), "q", 1))
    ensures TextAt("", [Q], 1) == "q"
  {
    var none: seq<HistoryEntry> := [];
    assert Ops(none) == [] && Ordered("", [], 0, Q) == Q && none + [LoggedQ()] == [LoggedQ()];
    assert Ops([LoggedQ()]) == [Q] && TextAt("", [Q], 1) == ApplyOp(TextAt("", [Q], 0), Q) == "q";
  }

  lemma AIsLogged()
    ensures Process(DocumentWith([LoggedQ()]), "u1", OpId("u1", 1), 0, Some(A))
            == (DocumentWith([LoggedQ(), LoggedA()]), Processed(AckFor(LoggedA()), RemoteFor(LoggedA()), "qa", 2))
    ensures TextAt("", [Q, A.(pos := 1)], 2) == "qa"
  {
    QIsLogged();
    assert Ops([LoggedQ()]) == [Q] && [LoggedQ()] + [LoggedA()] == [LoggedQ(), LoggedA()];
    assert Fold(A, [Q], 0, 1) == Transform(Fold(A, [Q], 0, 0), Q) == A.(pos := 1);
    assert Ops([LoggedQ(), LoggedA()]) == [Q, A.(pos := 1)];
    TextAtPrefix("", [Q], [Q, A.(pos := 1)], 1);
    assert TextAt("", [Q, A.(pos := 1)], 2) == ApplyOp("q", A.(pos := 1)) == "qa";
  }

  lemma BIsLogged()
    ensures Process(DocumentWith([LoggedQ(), LoggedA()]), "u1", OpId("u1", 2), 2, Some(B)).0
            == DocumentWith([LoggedQ(), LoggedA(), LoggedB()])
    ensures Process(DocumentWith([LoggedQ(), LoggedA()]), "u1", OpId("u1", 2), 2, Some(B)).1.Processed?
    ensures Text(DocumentWith([LoggedQ(), LoggedA(), LoggedB()])) == "qba"
  {
    AIsLogged();
    var log := [Q, A.(pos := 1)];
    assert Ops([LoggedQ(), LoggedA()]) == log;
    assert [LoggedQ(), LoggedA()] + [LoggedB()] == [LoggedQ(), LoggedA(), LoggedB()];
    assert Ordered("", log, 2, B) == B;
    assert Ops([LoggedQ(), LoggedA(), LoggedB()]) == log + [B];
    TextAtPrefix("", log, log + [B], 2);
    assert TextAt("", log + [B], 3) == ApplyOp("qa", B) == "qba";
  }

  lemma Serves(s: System) returns (t: System)
    requires s.doc == DocumentWith([]) && |s.slots| == 2
    requires Looks(s.slots[0], "u2", U2Typed(), 0, true, []) && Looks(s.slots[1], "u1", U1Typed(), 0, true, [])
    ensures PoliteRun(s, TWO_SERVED) && IsRun(s, TWO_SERVED) && t == After(s, TWO_SERVED)
    ensures t.doc == DocumentWith([LoggedQ(), LoggedA()]) && |t.slots| == 2
    ensures Looks(t.slots[1], "u1", U1Typed(), 1, true, [RemoteFor(LoggedQ()), AckFor(LoggedA())])
  {
    QIsLogged();
    AIsLogged();
    var s1 := Perform(s, Serve(0));
    assert s1.doc == DocumentWith([LoggedQ()]) && Looks(s1.slots[1], "u1", U1Typed(), 0, true, [RemoteFor(LoggedQ())]);
    PoliteSteps(s, Serve(0), Serve(1));
    t := After(s, TWO_SERVED);
    assert t.slots[1].down == [RemoteFor(LoggedQ())] + [AckFor(LoggedA())];
  }

  lemma Hears(s: System) returns (t: System)
    requires s.doc == DocumentWith([LoggedQ(), LoggedA()]) && |s.slots| == 2
    requires Looks(s.slots[1], "u1", U1Typed(), 1, true, [RemoteFor(LoggedQ()), AckFor(LoggedA())])
    ensures PoliteRun(s, U1_HEARS) && IsRun(s, U1_HEARS) && t == After(s, U1_HEARS)
    ensures t.doc == DocumentWith([LoggedQ(), LoggedA(), LoggedB()]) && |t.slots| == 2
    ensures t.slots[1].id == "u1" && t.slots[1].client == U1Sent()
  {
    var s1 := Perform(s, Deliver(1));
    assert ApplyOp("", Q) == "q" && ApplyOp("q", A.(pos := 1)) == "qa";
    assert Looks(s1.slots[1], "u1", U1Typed().(content := "q", version := 1), 1, true, [AckFor(LoggedA())]);
    var s2 := Perform(s1, Deliver(1));
    assert Looks(s2.slots[1], "u1", U1Sent(), 1, true, []);
    BIsLogged();
    PoliteThree(s, Deliver(1), Deliver(1), Serve(1));
    t := After(s, U1_HEARS);
  }

  /** Everybody is polite; u1 types "a" and, behind it, "b"; u2's "q" is served first. The second edit goes out
      as it was typed, at position 1 of version 2, and everybody gets "qba". */
  lemma QueuedEditDrifts()
    ensures var run := BOTH_JOIN + U2_LOADS + U1_LOADS + ALL_TYPE + TWO_SERVED + U1_HEARS;
            && PoliteRun(Start("", 10), run) && IsRun(Start("", 10), run)
            && var s := After(Start("", 10), run);
               && Text(s.doc) == "qba" && |s.slots| == 2 && s.slots[1].client.content == "qa"
               && s.slots[1].client.outbox
                  == [SubmitOp("u1", OpId("u1", 1), 0, Some(A)), SubmitOp("u1", OpId("u1", 2), 2, Some(B))]
  {
    var s0 := Start("", 10);
    var s2 := Joins();
    var s4 := Loads(s2, 0, "u2");
    var s6 := Loads(s4, 1, "u1");
    var s9 := Types(s6);
    var s11 := Serves(s9);
    var s14 := Hears(s11);
    PoliteConcatenate(s0, BOTH_JOIN, U2_LOADS);
    PoliteConcatenate(s0, BOTH_JOIN + U2_LOADS, U1_LOADS);
    PoliteConcatenate(s0, BOTH_JOIN + U2_LOADS + U1_LOADS, ALL_TYPE);
    PoliteConcatenate(s0, BOTH_JOIN + U2_LOADS + U1_LOADS + ALL_TYPE, TWO_SERVED);
    PoliteConcatenate(s0, BOTH_JOIN + U2_LOADS + U1_LOADS + ALL_TYPE + TWO_SERVED, U1_HEARS);
    BIsLogged();
  }

  // ----- What went wrong, and what the exact condition says of it -----

  lemma DriftIds()
    ensures var ops := [Q, A.(pos := 1), B];
            IdsAt(0, ops, 0) == [] && IdsAt(0, ops, 2) == [CharId.Typed(1), CharId.Typed(2)]
  {
    var ops := [Q, A.(pos := 1), B];
    assert IdsAt(0, ops, 1) == Splice(IdsAt(0, ops, 0), Q, [CharId.Typed(1)]) == [CharId.Typed(1)];
    assert IdsAt(0, ops, 2) == Splice(IdsAt(0, ops, 1), ops[1], [CharId.Typed(2)]);
  }

  lemma ExpectedInDrift(d: Doc)
    requires d == DocumentWith([LoggedQ(), LoggedA(), LoggedB()])
    ensures Expected(d.log, "u1", [A] + [B], 0, 2) == [B.(pos := 2)]
  {
    assert [A] + [B] == [A, B] && [A, B][1..] == [B];
    assert Rebase([B], Carry(Q, A)) == [Transform(B, Q)] + Rebase([], Carry(Carry(Q, A), B)) == [B.(pos := 2)];
    assert Rebase([A, B], Q) == [A.(pos := 1)] + Rebase([B], Q) == [A.(pos := 1), B.(pos := 2)];
    assert Expected(d.log, "u1", [A, B], 0, 1) == Rebase(Expected(d.log, "u1", [A, B], 0, 0), Q);
  }

  lemma ProjectionInDrift(d: Doc)
    requires d == DocumentWith([LoggedQ(), LoggedA(), LoggedB()])
    ensures Own(d.log, "u1", 0, 2) == [CharId.Typed(2)] && Projection(d, "u1", [A], 0, 2) == [CharId.Typed(2)]
    ensures IdsAt(|d.initial|, Ops(d.log), 2) == [CharId.Typed(1), CharId.Typed(2)]
  {
    assert Ops(d.log) == [Q, A.(pos := 1), B];
    DriftIds();
    assert Own(d.log, "u1", 0, 1) == Own(d.log, "u1", 0, 0) == [];
    var none: seq<CharId> := [];
    assert SpliceAll(none, [A], [CharId.Typed(2)]) == SpliceAll([CharId.Typed(2)], [], []);
  }

  /** "b" was typed behind "a" (typed as version 2); it lands in front of it, and folding would have moved it. */
  lemma DriftLosesTheGap()
    ensures var d := DocumentWith([LoggedQ(), LoggedA(), LoggedB()]);
            && Own(d.log, "u1", 0, 2) == [CharId.Typed(2)] && Projection(d, "u1", [A], 0, 2) == [CharId.Typed(2)]
            && !KeepsGap(d, "u1", [A], B, 0, 2)
            && Folded(d, "u1", [A], B, 0, 2) == B.(pos := 2) && !FoldLeavesIt(d, "u1", [A], B, 0, 2)
  {
    var d := DocumentWith([LoggedQ(), LoggedA(), LoggedB()]);
    ProjectionInDrift(d);
    ExpectedInDrift(d);
    GapLost(CharId.Typed(1), CharId.Typed(2));
  }

  lemma GapLost(q: CharId, a: CharId)
    requires q != a
    ensures !SameCut([a], 1, [q, a], 1)
  {
    var t, t' := [a], [q, a];
    assert t[0] == t'[1];
  }

  // ----- Behind an edit that has drifted -----

  const C := Operation(Delete, 1, "", "")

  lemma ExpectedOfB(d: Doc)
    requires d == DocumentWith([LoggedQ(), LoggedA(), LoggedB()])
    ensures Expected(d.log, "u1", [A, B, C], 0, 2) == [B.(pos := 2), C.(pos := 2)]
  {
    assert [A, B, C][1..] == [B, C] && [B, C][1..] == [C];
    assert Rebase([C], Q) == [Transform(C, Q)] + Rebase([], Carry(Q, C)) == [C.(pos := 2)];
    assert Carry(Q, A) == Q && Carry(Q, B) == Q;
    assert Rebase([B, C], Q) == [B.(pos := 2)] + Rebase([C], Q) == [B.(pos := 2), C.(pos := 2)];
    assert Rebase([A, B, C], Q) == [A.(pos := 1)] + Rebase([B, C], Q) == [A.(pos := 1), B.(pos := 2), C.(pos := 2)];
    var one := Expected(d.log, "u1", [A, B, C], 0, 1);
    assert one == Rebase(Expected(d.log, "u1", [A, B, C], 0, 0), Q);
  }

  lemma ExpectedBehindDrift(d: Doc)
    requires d == DocumentWith([LoggedQ(), LoggedA(), LoggedB()])
    ensures Expected(d.log, "u1", [A, B] + [C], 0, 3) == [C.(pos := 2)]
  {
    assert [A, B] + [C] == [A, B, C];
    ExpectedOfB(d);
  }

  lemma ProjectionBehindDrift(d: Doc)
    requires d == DocumentWith([LoggedQ(), LoggedA(), LoggedB()])
    ensures Own(d.log, "u1", 0, 3) == [CharId.Typed(2), CharId.Typed(3)]
    ensures Projection(d, "u1", [A, B], 0, 3) == [CharId.Typed(2), CharId.Typed(3)]
    ensures IdsAt(|d.initial|, Ops(d.log), 3) == [CharId.Typed(1), CharId.Typed(3), CharId.Typed(2)]
  {
    ProjectionInDrift(d);
    assert IdsAt(0, Ops(d.log), 3) == Splice(IdsAt(0, Ops(d.log), 2), B, [CharId.Typed(3)]);
    assert Own(d.log, "u1", 0, 3) == Own(d.log, "u1", 0, 2) + [CharId.Typed(3)];
    var none, names := [], [CharId.Typed(2), CharId.Typed(3)];
    assert [A, B][1..] == [B] && names[1..] == [CharId.Typed(3)] && [B][1..] == [];
    var behindA := Splice(none, A, [CharId.Typed(2)]);
    assert SpliceAll(behindA, [B], [CharId.Typed(3)]) == Splice(behindA, B, [CharId.Typed(3)]) == names;
  }

  lemma DriftIsValid(d: Doc)
    requires d == DocumentWith([LoggedQ(), LoggedA(), LoggedB()])
    ensures ValidDoc(d)
  {
    var d1, d2 := DocumentWith([LoggedQ()]), DocumentWith([LoggedQ(), LoggedA()]);
    QIsLogged();
    AIsLogged();
    BIsLogged();
    ProcessKeepsValid(DocumentWith([]), "u2", OpId("u2", 1), 0, Some(Q));
    ProcessKeepsValid(d1, "u1", OpId("u1", 1), 0, Some(A));
    ProcessKeepsValid(d2, "u1", OpId("u1", 2), 2, Some(B));
  }

  /** Why the edits ahead must have kept their place for the fold to decide: had u1 gone on to delete the "b" it
      had just typed, sending that as typed would still delete the "b", for that one has drifted by as much as the
      fold moves. Following the "b" does decide. */
  lemma DriftCancels()
    ensures var d := DocumentWith([LoggedQ(), LoggedA(), LoggedB()]);
            && Own(d.log, "u1", 0, 3) == [CharId.Typed(2), CharId.Typed(3)]
            && Projection(d, "u1", [A, B], 0, 3) == [CharId.Typed(2), CharId.Typed(3)]
            && KeepsCharacter(d, "u1", [A, B], C, 0, 3) && !FoldLeavesIt(d, "u1", [A, B], C, 0, 3)
            && Known(d, CharId.Typed(3), 0, 3) && FollowsTheCharacter(d, "u1", [A, B], C, 0, 3)
            && !LoggedAsExpected(d.log, "u1", [A, B, C], 0, 3)
  {
    var d := DocumentWith([LoggedQ(), LoggedA(), LoggedB()]);
    ProjectionBehindDrift(d);
    ExpectedBehindDrift(d);
    assert [A, B] + [C] == [A, B, C];
    var ids := [CharId.Typed(1), CharId.Typed(3), CharId.Typed(2)];
    WithoutAt(ids, 1);
    ExpectedOfB(d);
    DriftIsValid(d);
    QueuedDeleteExact(d, "u1", [A, B], C, 0, 3);
  }

  // ----- Moved, and yet in the same gap -----

  const CUT := Operation(Delete, 0, "", "")
  const B_ALONE := Operation(Insert, 0, "b", "")

  /** Out of "x", u1 deletes the x, then types "b"; u2's "q" is served first. */
  function EmptiedDocument(): Doc {
    Doc("x", 10, [LoggedQ(), HistoryEntry(2, "u1", OpId("u1", 1), 0, CUT, CUT.(pos := 1))])
  }

  lemma ExpectedInEmptied(d: Doc)
    requires d == EmptiedDocument()
    ensures Expected(d.log, "u1", [CUT] + [B_ALONE], 0, 2) == [B_ALONE.(pos := 1)]
  {
    assert [CUT] + [B_ALONE] == [CUT, B_ALONE] && [CUT, B_ALONE][1..] == [B_ALONE];
    assert Rebase([B_ALONE], Carry(Q, CUT)) == [Transform(B_ALONE, Q)] + Rebase([], Carry(Carry(Q, CUT), B_ALONE));
    assert Rebase([CUT, B_ALONE], Q) == [CUT.(pos := 1)] + Rebase([B_ALONE], Q) == [CUT.(pos := 1), B_ALONE.(pos := 1)];
    assert Expected(d.log, "u1", [CUT, B_ALONE], 0, 1) == Rebase(Expected(d.log, "u1", [CUT, B_ALONE], 0, 0), Q);
  }

  lemma IdsInEmptied(d: Doc)
    requires d == EmptiedDocument()
    ensures IdsAt(|d.initial|, Ops(d.log), 2) == [CharId.Typed(1)]
    ensures Own(d.log, "u1", 0, 2) == [CharId.Typed(2)] && Projection(d, "u1", [CUT], 0, 2) == []
  {
    var ops := [Q, CUT.(pos := 1)];
    assert Ops(d.log) == ops && IdsAt(1, ops, 0) == [Original(0)];
    assert IdsAt(1, ops, 1) == Splice(IdsAt(1, ops, 0), Q, [CharId.Typed(1)]) == [CharId.Typed(1), Original(0)];
    assert Own(d.log, "u1", 0, 1) == Own(d.log, "u1", 0, 0) == [];
    assert SpliceAll([Original(0)], [CUT], [CharId.Typed(2)]) == SpliceAll([], [], []);
  }

  /** Why the condition for an insert is about what stands in between: the fold would put "b" behind the "q",
      as sent it stands in front of it; its user, who saw neither, typed it into an empty text. */
  lemma MovedInTheSameGap()
    ensures var d := EmptiedDocument();
            && |Own(d.log, "u1", 0, 2)| == 1
            && !FoldLeavesIt(d, "u1", [CUT], B_ALONE, 0, 2) && KeepsGap(d, "u1", [CUT], B_ALONE, 0, 2)
  {
    var d := EmptiedDocument();
    ExpectedInEmptied(d);
    IdsInEmptied(d);
  }
}
