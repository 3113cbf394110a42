/** A run in which a resynchronisation drops what a user typed. */
module Losses {
  import opened Operations
  import opened Messages
  import opened Documents
  import opened Clients
  import opened ClientRuns
  import opened Systems
  import opened Convergence
  import opened Conservation

  const KEY := Operation(Insert, 0, "x", "")

  /** A connection that has joined under its own name and typed one edit into the empty document. */
  function Newly(name: string): Slot {
    TypeInto(Newcomer(Doc("", 1, []), name, name), KEY)
  }

  const THREE_JOIN: seq<Step> := [Join("a"), Join("b"), Join("c")]
  const THREE_TYPE: seq<Step> := [TypeOp(0, KEY), TypeOp(1, KEY), TypeOp(2, KEY)]
  const THREE_SERVED: seq<Step> := [Serve(0), Serve(1), Serve(2)]

  lemma Joined() returns (s: System)
    ensures IsRun(Start("", 1), THREE_JOIN) && s == After(Start("", 1), THREE_JOIN)
    ensures var d := Doc("", 1, []);
            s.doc == d && s.slots == [Newcomer(d, "c", "c"), Newcomer(d, "b", "b"), Newcomer(d, "a", "a")]
  {
    var s0 := Start("", 1);
    var s1 := JoinsAs(s0, "a");
    assert s1.slots == [Newcomer(s0.doc, "a", "a")] + s0.slots == [Newcomer(s0.doc, "a", "a")];
    var s2 := JoinsAs(s1, "b");
    assert s2.slots == [Newcomer(s0.doc, "b", "b"), Newcomer(s0.doc, "a", "a")];
    s := JoinsAs(s2, "c");
    ThreeSteps(s0, Join("a"), Join("b"), Join("c"));
  }

  lemma JoinsAs(s: System, name: string) returns (t: System)
    requires name != "" && forall k :: 0 <= k < |s.slots| ==> s.slots[k].id != name
    ensures t == Perform(s, Join(name)) && t.doc == s.doc && t.slots == [Newcomer(s.doc, name, name)] + s.slots
  {
    t := Perform(s, Join(name));
    assert name !in IdsOf(s.slots);
  }

  lemma EveryoneTypes(s: System) returns (t: System)
    requires var d := Doc("", 1, []);
             s.doc == d && s.slots == [Newcomer(d, "c", "c"), Newcomer(d, "b", "b"), Newcomer(d, "a", "a")]
    ensures IsRun(s, THREE_TYPE) && t == After(s, THREE_TYPE)
    ensures t.doc == Doc("", 1, []) && t.slots == [Newly("c"), Newly("b"), Newly("a")]
  {
    ThreeSteps(s, TypeOp(0, KEY), TypeOp(1, KEY), TypeOp(2, KEY));
    t := After(s, THREE_TYPE);
    assert t.slots == [Newly("c"), Newly("b"), Newly("a")];
  }

  lemma NewlyWaits(name: string)
    ensures var slot := Newly(name);
            && slot.id == slot.requested == name && slot.served == 0 && slot.joinedAt == 0 && slot.client.queue == []
            && |slot.client.outbox| == 1 && slot.client.outbox[0].SubmitOp?
            && slot.client.outbox[0].baseVersion == 0 && slot.client.outbox[0].op == Some(KEY)
            && slot.events == [Event.Typed(KEY)]
  {
  }

  /** What of a slot serving somebody else leaves alone. */
  predicate Untouched(slot: Slot, slot': Slot) {
    slot'.client == slot.client && slot'.id == slot.id && slot'.served == slot.served && slot'.joinedAt == slot.joinedAt
    && slot'.events == slot.events && slot'.requested == slot.requested
  }

  /** One of the three is served; `n` were before it. */
  lemma ServesOne(s: System, i: nat, n: nat) returns (t: System)
    requires |s.slots| == 3 && i < 3 && DistinctIds(s.slots) && s.doc.limit == 1 && |s.doc.log| == n <= 2
    requires Untouched(Newly(s.slots[i].id), s.slots[i])
    ensures CanServe(s.slots[i]) && t == Perform(s, Serve(i)) && |t.slots| == 3 && DistinctIds(t.slots)
    ensures t.doc.limit == 1
    ensures forall k :: 0 <= k < 3 && k != i ==> Untouched(s.slots[k], t.slots[k])
    ensures Untouched(s.slots[i], t.slots[i].(served := 0)) && t.slots[i].served == 1
    ensures if n < 2 then |t.doc.log| == n + 1 && s.doc.log <= t.doc.log && t.doc.log[n].clientId == s.slots[i].id
            else t.doc.log == s.doc.log && OutsideGate(s.doc, s.slots[i].client.outbox[0])
  {
    NewlyWaits(s.slots[i].id);
    t := Perform(s, Serve(i));
    var own, others := ServeShape(s, i);
    ServeLogs(s, i);
    assert forall k :: 0 <= k < 3 ==> t.slots[k].id == s.slots[k].id;
    assert t.doc.limit == 1 by {
      ServeKeepsLimit(s, i);
    }
  }

  lemma ServeKeepsLimit(s: System, i: nat)
    requires i < |s.slots| && CanServe(s.slots[i])
    ensures ServeSlot(s, i).doc.limit == s.doc.limit
  {
  }

  lemma AllServed(s: System) returns (t: System)
    requires s.doc == Doc("", 1, []) && s.slots == [Newly("c"), Newly("b"), Newly("a")]
    ensures IsRun(s, THREE_SERVED) && t == After(s, THREE_SERVED)
    ensures |t.slots| == 3 && Untouched(Newly("a"), t.slots[2].(served := 0)) && t.slots[2].served == 1
    ensures |t.doc.log| == 2 && t.doc.log[0].clientId == "c" && t.doc.log[1].clientId == "b"
  {
    NewlyWaits("a");
    NewlyWaits("b");
    NewlyWaits("c");
    assert "a" != "b" && "b" != "c" && "a" != "c";
    var s1 := ServesOne(s, 0, 0);
    var s2 := ServesOne(s1, 1, 1);
    t := ServesOne(s2, 2, 2);
    ThreeSteps(s, Serve(0), Serve(1), Serve(2));
  }

  /** Nothing of the edit is left. */
  lemma NothingPresent(d: Doc, slot: Slot)
    requires Untouched(Newly("a"), slot.(served := 0)) && slot.served == 1
    requires |d.log| == 2 && d.log[0].clientId == "c" && d.log[1].clientId == "b"
    ensures slot.served <= |slot.client.outbox| && Present(d, slot) == [] && |Meant(slot)| == 1
  {
    NewlyWaits("a");
    assert d.log[..1][..0] == [] && d.log[..1] == [d.log[0]] && |d.log| - 1 == 1;
    assert LoggedFrom(d.log[..1], 0, "a") == LoggedFrom([], 0, "a") == [];
    assert Uplink(slot) == [] && SentEdits([]) + WaitingEdits([]) == [];
    var events, typed := slot.events, TypedEdits(NewClient("a"), slot.events);
    assert events[..|events| - 1] == [] && events[|events| - 1] == Event.Typed(KEY);
    assert TypedEdits(NewClient("a"), []) == [];
    assert typed == [Edit(OpId("a", 1), KEY)] && typed[..|typed| - 1] == [];
    AcceptedLast([], typed[0]);
    assert [] + typed == typed;
  }

  /** Three users type one character each into an empty document with a history of one entry. The third is
      served two versions late: its operation is refused, and the character is nowhere any more. */
  lemma ResyncDropsAnEdit()
    ensures var run := THREE_JOIN + THREE_TYPE + THREE_SERVED;
            && IsRun(Start("", 1), run)
            && var s := After(Start("", 1), run);
               && |s.slots| == 3 && s.slots[2].id == "a" && s.slots[2].served <= |s.slots[2].client.outbox|
               && |Meant(s.slots[2])| == 1 && Present(s.doc, s.slots[2]) == []
               && LateServes(Start("", 1), run, "a", 0) == 1
  {
    var s0, run := Start("", 1), THREE_JOIN + THREE_TYPE + THREE_SERVED;
    var s3 := Joined();
    var s6 := EveryoneTypes(s3);
    var s9 := AllServed(s6);
    RunsConcatenate(s0, THREE_JOIN, THREE_TYPE);
    RunsConcatenate(s0, THREE_JOIN + THREE_TYPE, THREE_SERVED);
    NewlyWaits("a");
    NothingPresent(s9.doc, s9.slots[2]);
    KeyStrokesLostExactly("", 1, run, 2);
  }
}
