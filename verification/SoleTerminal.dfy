/** The cursor of the only editor, over whole runs of the system: what the terminal projects is exactly the
    text to come, and the cursor never leaves it. */
module SoleTerminal {
  import opened Operations
  import opened Messages
  import opened Documents
  import opened Clients
  import opened ClientRuns
  import opened Systems
  import opened Convergence
  import opened PoliteRuns
  import opened SoleEditor
  import opened Terminals

  /** The system, and the cursor of the one who edits. */
  datatype Desk = Desk(system: System, cursor: nat)

  datatype Act = Strike(i: nat, key: Key) | Move(step: Step)

  function EditorAt(desk: Desk, i: nat): Editor
    requires i < |desk.system.slots|
  {
    Editor(desk.system.slots[i].client, desk.cursor)
  }

  /** Keys are struck at w's terminal, once its first snapshot is there; all else happens in any order. */
  predicate Allowed(desk: Desk, act: Act, w: string) {
    match act
    case Strike(i, _) => i < |desk.system.slots| && desk.system.slots[i].id == w && desk.system.slots[i].synced
    case Move(step) => Enabled(desk.system, step) && !step.TypeOp? && Sole(desk.system, step, w)
  }

  function Do(desk: Desk, act: Act, w: string): Desk
    requires Allowed(desk, act, w)
  {
    match act
    case Strike(i, key) =>
      var edit := EditFor(EditorAt(desk, i), key);
      Desk(if edit.Some? then Perform(desk.system, TypeOp(i, edit.value)) else desk.system,
           Press(EditorAt(desk, i), key).cursor)
    case Move(step) =>
      Desk(Perform(desk.system, step),
           if step.Deliver? && desk.system.slots[step.i].id == w
           then Take(EditorAt(desk, step.i), desk.system.slots[step.i].down[0]).cursor else desk.cursor)
  }

  predicate DeskRun(desk: Desk, acts: seq<Act>, w: string)
    decreases acts
  {
    acts == [] || (Allowed(desk, acts[0], w) && DeskRun(Do(desk, acts[0], w), acts[1..], w))
  }

  function AfterActs(desk: Desk, acts: seq<Act>, w: string): Desk
    requires DeskRun(desk, acts, w)
    decreases acts
  {
    if acts == [] then desk else AfterActs(Do(desk, acts[0], w), acts[1..], w)
  }

  // ----- Operations that fit one after the other -----

  predicate AllFit(text: string, ops: seq<Operation>) {
    ops == [] ||
    var front, last := ops[..|ops| - 1], ops[|ops| - 1];
    AllFit(text, front) && Fits(last, |Sequential(text, front)|)
  }

  function OpsDelta(ops: seq<Operation>): int {
    if ops == [] then 0 else OpsDelta(ops[..|ops| - 1]) + Delta(ops[|ops| - 1])
  }

  lemma AllFitLast(text: string, ops: seq<Operation>, op: Operation)
    requires AllFit(text, ops) && Fits(op, |Sequential(text, ops)|)
    ensures AllFit(text, ops + [op])
  {
    assert (ops + [op])[..|ops|] == ops;
  }

  lemma {:induction false} AllFitFirst(text: string, op: Operation, ops: seq<Operation>)
    requires AllFit(text, [op] + ops)
    ensures Fits(op, |text|) && AllFit(ApplyOp(text, op), ops)
  {
    if ops == [] {
      assert ([op] + ops)[..0] == [];
    } else {
      var front := ops[..|ops| - 1];
      assert ([op] + ops)[..|ops|] == [op] + front;
      AllFitFirst(text, op, front);
      SequentialFirst(text, op, front);
    }
  }

  lemma {:induction false} SequentialLength(text: string, ops: seq<Operation>)
    requires AllFit(text, ops)
    ensures |Sequential(text, ops)| == |text| + OpsDelta(ops)
  {
    if ops != [] {
      SequentialLength(text, ops[..|ops| - 1]);
    }
  }

  lemma {:induction false} QueueDelta(queue: seq<Pending>)
    ensures OpsDelta(QueueOps(queue)) == Deltas(queue)
  {
    if queue != [] {
      QueueDelta(queue[..|queue| - 1]);
      assert QueueOps(queue)[..|queue| - 1] == QueueOps(queue[..|queue| - 1]);
    }
  }

  lemma {:induction false} DeltaFirst(op: Operation, ops: seq<Operation>)
    ensures OpsDelta([op] + ops) == Delta(op) + OpsDelta(ops)
  {
    if ops == [] {
      assert ([op] + ops)[..0] == [];
    } else {
      DeltaFirst(op, ops[..|ops| - 1]);
      assert ([op] + ops)[..|ops|] == [op] + ops[..|ops| - 1];
    }
  }

  // ----- The invariant -----

  function Intended(d: Doc, slot: Slot): string {
    Sequential(d.initial, TypedOps(slot.events))
  }

  /** Every pending operation fits the text it will be applied to. */
  ghost predicate PendingFit(d: Doc, slot: Slot) {
    && AllFit(Text(d), Unapplied(slot))
    && (AwaitsAck(slot) ==> Version(d) > 0 && Fits(slot.client.inflight.value.op, |TextOf(d, Version(d) - 1)|))
  }

  /** The cursor of w is within the text to come. */
  ghost predicate AtDesk(d: Doc, slots: seq<Slot>, cursor: nat, w: string) {
    forall k :: 0 <= k < |slots| && slots[k].id == w ==> PendingFit(d, slots[k]) && cursor <= |Intended(d, slots[k])|
  }

  ghost predicate DeskInv(desk: Desk, w: string) {
    && SoleInv(desk.system, w)
    && AtDesk(desk.system.doc, desk.system.slots, desk.cursor, w)
    && (w !in IdsOf(desk.system.slots) ==> desk.cursor == 0)
  }

  lemma PendingSplit(c: Client)
    ensures PendingOps(c) == if c.inflight.Some? then [c.inflight.value.op] + QueueOps(c.queue) else QueueOps(c.queue)
    ensures RawLength(c) == |c.content| + OpsDelta(PendingOps(c))
  {
    QueueDelta(c.queue);
    if c.inflight.Some? {
      DeltaFirst(c.inflight.value.op, QueueOps(c.queue));
    }
  }

  /** The text on show is the server's, or the one before while the acknowledgement is on its way. */
  lemma PendingLeadsOn(d: Doc, slot: Slot)
    requires slot.synced && Shows(d, slot.client) && InStep(d, slot) && PendingFit(d, slot)
    ensures Sequential(slot.client.content, PendingOps(slot.client)) == Sequential(Text(d), Unapplied(slot))
    ensures |slot.client.content| + OpsDelta(PendingOps(slot.client)) == |Text(d)| + OpsDelta(Unapplied(slot))
  {
    var c, rest := slot.client, QueueOps(slot.client.queue);
    PendingSplit(c);
    if AwaitsAck(slot) {
      assert Unapplied(slot) == rest && c.content == TextOf(d, Version(d) - 1);
      SequentialFirst(c.content, c.inflight.value.op, rest);
      DeltaFirst(c.inflight.value.op, rest);
    } else {
      assert Unapplied(slot) == PendingOps(c) && c.content == Text(d);
    }
  }

  /** What the writer sees, followed by all it has pending, is what it typed; and its length is what the
      terminal projects. */
  lemma ProjectionExact(d: Doc, slot: Slot)
    requires SlotInv(d, slot) && Writer(d, slot) && PendingFit(d, slot) && slot.synced
    ensures Sequential(slot.client.content, PendingOps(slot.client)) == Intended(d, slot)
    ensures RawLength(slot.client) == |Intended(d, slot)|
  {
    PendingLeadsOn(d, slot);
    PendingSplit(slot.client);
    SequentialLength(Text(d), Unapplied(slot));
  }

  // ----- Every act keeps it -----

  lemma EditFits(d: Doc, slot: Slot, e: Editor, key: Key)
    requires e.cursor <= |Intended(d, slot)| && EditFor(e, key).Some?
    ensures Fits(EditFor(e, key).value, |Intended(d, slot)|)
  {
  }

  lemma IntendedAfter(d: Doc, slot: Slot, op: Operation)
    requires Fits(op, |Intended(d, slot)|)
    ensures |Intended(d, TypeInto(slot, op))| == |Intended(d, slot)| + Delta(op)
  {
    TypedOpsLast(slot.events, Typed(op));
    SequentialLast(d.initial, TypedOps(slot.events), op);
  }

  lemma TypingKeepsFit(d: Doc, slot: Slot, op: Operation)
    requires SlotInv(d, slot) && Writer(d, slot) && PendingFit(d, slot) && Fits(op, |Intended(d, slot)|)
    ensures PendingFit(d, TypeInto(slot, op))
  {
    TypingPumps(slot, d, op);
    assert Unapplied(TypeInto(slot, op)) == Unapplied(slot.(client := QueueOperation(slot.client, op)));
    AllFitLast(Text(d), Unapplied(slot), op);
  }

  /** Where a key leaves the cursor. */
  lemma StrikeStaysInside(d: Doc, slot: Slot, e: Editor, key: Key)
    requires RawLength(slot.client) == |Intended(d, slot)|
    requires e.client == slot.client && e.cursor <= |Intended(d, slot)|
    ensures var edit := EditFor(e, key);
            Press(e, key).cursor <= |Intended(d, slot)| + if edit.Some? then Delta(edit.value) else 0
  {
  }

  /** Only the slot of w matters to the invariant. */
  lemma OneChanged(desk: Desk, i: nat, slot: Slot, cursor: nat, w: string)
    requires DeskInv(desk, w) && i < |desk.system.slots| && desk.system.slots[i].id == w == slot.id
    requires SoleInv(desk.system.(slots := desk.system.slots[i := slot]), w)
    requires PendingFit(desk.system.doc, slot) && cursor <= |Intended(desk.system.doc, slot)|
    ensures DeskInv(Desk(desk.system.(slots := desk.system.slots[i := slot]), cursor), w)
  {
    var slots := desk.system.slots[i := slot];
    assert slots[i].id in IdsOf(slots);
  }

  lemma OnlyTheCursor(desk: Desk, i: nat, cursor: nat, w: string)
    requires DeskInv(desk, w) && i < |desk.system.slots| && desk.system.slots[i].id == w
    requires cursor <= |Intended(desk.system.doc, desk.system.slots[i])|
    ensures DeskInv(Desk(desk.system, cursor), w)
  {
    var slots := desk.system.slots;
    assert forall k :: 0 <= k < |slots| && slots[k].id == w ==> k == i;
    assert slots[i].id in IdsOf(slots);
  }

  lemma TypedKeepsDesk(desk: Desk, i: nat, op: Operation, cursor: nat, w: string)
    requires DeskInv(desk, w) && i < |desk.system.slots| && desk.system.slots[i].id == w
    requires SoleInv(Perform(desk.system, TypeOp(i, op)), w)
    requires var d, slot := desk.system.doc, desk.system.slots[i];
             PendingFit(d, TypeInto(slot, op)) && cursor <= |Intended(d, TypeInto(slot, op))|
    ensures DeskInv(Desk(Perform(desk.system, TypeOp(i, op)), cursor), w)
  {
    OneChanged(desk, i, TypeInto(desk.system.slots[i], op), cursor, w);
  }

  lemma StrikeKeeps(desk: Desk, i: nat, key: Key, w: string)
    requires DeskInv(desk, w) && Allowed(desk, Strike(i, key), w) && SoleInv(Do(desk, Strike(i, key), w).system, w)
    ensures DeskInv(Do(desk, Strike(i, key), w), w)
  {
    var d, e, slot := desk.system.doc, EditorAt(desk, i), desk.system.slots[i];
    assert SlotInv(d, slot) && Writer(d, slot) && PendingFit(d, slot) && e.cursor <= |Intended(d, slot)|;
    ProjectionExact(d, slot);
    StrikeStaysInside(d, slot, e, key);
    if EditFor(e, key).Some? {
      var op := EditFor(e, key).value;
      EditFits(d, slot, e, key);
      IntendedAfter(d, slot, op);
      TypingKeepsFit(d, slot, op);
      TypedKeepsDesk(desk, i, op, Press(e, key).cursor, w);
    } else {
      OnlyTheCursor(desk, i, Press(e, key).cursor, w);
    }
  }

  lemma DeliveryKeepsFit(d: Doc, slot: Slot)
    requires SlotInv(d, slot) && Writer(d, slot) && CanDeliver(slot) && PendingFit(d, slot)
    requires !(slot.down[0].DocState? && slot.client.inflight.Some?)
    ensures PendingFit(d, DeliverTo(slot)) && Intended(d, DeliverTo(slot)) == Intended(d, slot)
  {
    TypedOpsLast(slot.events, Received(slot.down[0]));
    DeliveryInStep(d, slot);
  }

  /** Putting together a state that has the same connections, under the same names. */
  lemma SameNames(s: System, t: System, cursor: nat, w: string)
    requires SoleInv(t, w) && |t.slots| == |s.slots| && (w !in IdsOf(s.slots) ==> cursor == 0)
    requires forall k :: 0 <= k < |s.slots| ==> t.slots[k].id == s.slots[k].id
    requires forall k :: 0 <= k < |t.slots| && t.slots[k].id == w ==>
                           PendingFit(t.doc, t.slots[k]) && cursor <= |Intended(t.doc, t.slots[k])|
    ensures DeskInv(Desk(t, cursor), w)
  {
    assert IdsOf(t.slots) == IdsOf(s.slots);
  }

  lemma DeliveredKeepsDesk(desk: Desk, i: nat, cursor: nat, w: string)
    requires DeskInv(desk, w) && Allowed(desk, Move(Deliver(i)), w) && cursor <= desk.cursor
    requires SoleInv(Perform(desk.system, Deliver(i)), w) && !ForgetsInFlight(desk.system, Deliver(i))
    ensures DeskInv(Desk(Perform(desk.system, Deliver(i)), cursor), w)
  {
    var s := desk.system;
    if s.slots[i].id == w {
      DeliveryKeepsFit(s.doc, s.slots[i]);
      OneChanged(desk, i, DeliverTo(s.slots[i]), cursor, w);
    } else {
      SameNames(s, Perform(s, Deliver(i)), cursor, w);
    }
  }

  lemma DeliverKeepsDesk(desk: Desk, i: nat, w: string)
    requires DeskInv(desk, w) && Allowed(desk, Move(Deliver(i)), w)
    requires SoleInv(Perform(desk.system, Deliver(i)), w) && !ForgetsInFlight(desk.system, Deliver(i))
    ensures DeskInv(Do(desk, Move(Deliver(i)), w), w)
  {
    DeliveredKeepsDesk(desk, i, Do(desk, Move(Deliver(i)), w).cursor, w);
  }

  /** What serving does to the writer's slot: nothing but the downlink changes, or its operation in flight
      is applied. */
  lemma ServedFit(d: Doc, d': Doc, slot: Slot, messages: seq<ServerMessage>)
    requires SlotInv(d, slot) && PendingFit(d, slot) && CanServe(slot)
    requires if slot.client.outbox[slot.served].SubmitOp? then
               slot.client.inflight.Some? && Grown(d, d') && Text(d') == ApplyOp(Text(d), slot.client.inflight.value.op)
             else d' == d
    ensures PendingFit(d', Push(Served(slot), messages))
  {
    var after := Push(Served(slot), messages);
    if slot.client.outbox[slot.served].SubmitOp? {
      UnservedOperation(slot);
      assert Unapplied(slot) == [slot.client.inflight.value.op] + Unapplied(after);
      AllFitFirst(Text(d), slot.client.inflight.value.op, Unapplied(after));
      GrownTexts(d, d', Version(d));
    } else {
      assert Unapplied(after) == Unapplied(slot);
    }
  }

  /** A Serve step, seen from the writer's slot. */
  lemma ServeTouches(s: System, i: nat, w: string, k: nat)
    requires SoleInv(s, w) && i < |s.slots| && CanServe(s.slots[i]) && k < |s.slots| && s.slots[k].id == w
    requires PendingFit(s.doc, s.slots[k])
    ensures var t := ServeSlot(s, i);
            && |t.slots| == |s.slots| && t.slots[k].id == w && t.doc.initial == s.doc.initial
            && t.slots[k].events == s.slots[k].events && PendingFit(t.doc, t.slots[k])
  {
    var slot := s.slots[i];
    if slot.client.outbox[slot.served] == RequestDoc {
      if i == k {
        ServedFit(s.doc, s.doc, slot, [StateMessage(s.doc)]);
      }
    } else {
      UnservedOperation(slot);
      assert i == k;
      var doc, r := WriterProcessed(s, i, slot.client.inflight.value.op);
      ServedFit(s.doc, doc, slot, [r.ack]);
      AnswerAtSubmitter(s, i, doc, r);
    }
  }

  lemma AnswerAtSubmitter(s: System, i: nat, doc: Doc, r: ProcessResult)
    requires i < |s.slots| && r.Processed?
    ensures var t := Answer(s, i, Served(s.slots[i]), doc, r);
            t.doc == doc && |t.slots| == |s.slots| && t.slots[i] == Push(Served(s.slots[i]), [r.ack])
  {
  }

  lemma ServeKeepsDesk(desk: Desk, i: nat, w: string)
    requires DeskInv(desk, w) && Allowed(desk, Move(Serve(i)), w) && SoleInv(ServeSlot(desk.system, i), w)
    ensures DeskInv(Do(desk, Move(Serve(i)), w), w)
  {
    var s, t := desk.system, ServeSlot(desk.system, i);
    ServeKeepsNames(s, i);
    forall k | 0 <= k < |t.slots| && t.slots[k].id == w
      ensures PendingFit(t.doc, t.slots[k]) && desk.cursor <= |Intended(t.doc, t.slots[k])|
    {
      ServeTouches(s, i, w, k);
    }
    SameNames(s, t, desk.cursor, w);
  }

  lemma ServeKeepsNames(s: System, i: nat)
    requires i < |s.slots| && CanServe(s.slots[i])
    ensures |ServeSlot(s, i).slots| == |s.slots|
    ensures forall k :: 0 <= k < |s.slots| ==> ServeSlot(s, i).slots[k].id == s.slots[k].id
  {
  }

  lemma JoinKeepsDesk(desk: Desk, requested: string, w: string)
    requires DeskInv(desk, w) && SoleInv(Perform(desk.system, Join(requested)), w)
    ensures DeskInv(Do(desk, Move(Join(requested)), w), w)
  {
    var s, t := desk.system, Perform(desk.system, Join(requested));
    assert t.slots[1..] == s.slots;
    forall k | 0 <= k < |s.slots| ensures s.slots[k].id in IdsOf(t.slots) && t.slots[k + 1] == s.slots[k] {
      assert t.slots[k + 1] == s.slots[k];
    }
    assert t.slots[0].id !in IdsOf(s.slots);
    assert Unapplied(t.slots[0]) == [];
    if w !in IdsOf(t.slots) {
      assert w !in IdsOf(s.slots);
    }
  }

  lemma FewerAtDesk(d: Doc, slots: seq<Slot>, i: nat, cursor: nat, w: string)
    requires i < |slots| && AtDesk(d, slots, cursor, w)
    ensures AtDesk(d, slots[..i] + slots[i + 1..], cursor, w)
  {
    var rest := slots[..i] + slots[i + 1..];
    assert forall k :: 0 <= k < |rest| ==> rest[k] == slots[if k < i then k else k + 1];
  }

  lemma LeaveKeepsDesk(desk: Desk, i: nat, w: string)
    requires DeskInv(desk, w) && Allowed(desk, Move(Leave(i)), w) && SoleInv(Perform(desk.system, Leave(i)), w)
    ensures DeskInv(Do(desk, Move(Leave(i)), w), w)
  {
    OthersRemain(desk.system.slots, i, w);
    FewerAtDesk(desk.system.doc, desk.system.slots, i, desk.cursor, w);
  }

  /** The system's own step in an act, if there is one. */
  function StepOf(desk: Desk, act: Act): Option<Step> {
    match act
    case Strike(i, key) =>
      if i < |desk.system.slots| && EditFor(EditorAt(desk, i), key).Some?
      then Some(TypeOp(i, EditFor(EditorAt(desk, i), key).value)) else None
    case Move(step) => Some(step)
  }

  /** Acts are steps of a run with one editor. */
  lemma ActIsSole(desk: Desk, act: Act, w: string)
    requires SoleInv(desk.system, w) && PoliteInv(desk.system) && Allowed(desk, act, w)
    ensures SoleInv(Do(desk, act, w).system, w) && PoliteInv(Do(desk, act, w).system)
    ensures act.Move? ==> !ForgetsInFlight(desk.system, act.step)
  {
    var step := StepOf(desk, act);
    if step.Some? {
      SoleStepKeeps(desk.system, step.value, w);
    }
  }

  lemma ActKeeps(desk: Desk, act: Act, w: string)
    requires DeskInv(desk, w) && Allowed(desk, act, w) && SoleInv(Do(desk, act, w).system, w)
    requires act.Move? ==> !ForgetsInFlight(desk.system, act.step)
    ensures DeskInv(Do(desk, act, w), w)
  {
    match act
    case Strike(i, key) => StrikeKeeps(desk, i, key, w);
    case Move(step) =>
      match step
      case Join(requested) => JoinKeepsDesk(desk, requested, w);
      case Leave(i) => LeaveKeepsDesk(desk, i, w);
      case Serve(i) => ServeKeepsDesk(desk, i, w);
      case Deliver(i) => DeliverKeepsDesk(desk, i, w);
  }

  lemma {:induction false} DeskRunKeeps(desk: Desk, acts: seq<Act>, w: string)
    requires DeskInv(desk, w) && PoliteInv(desk.system) && DeskRun(desk, acts, w)
    ensures DeskInv(AfterActs(desk, acts, w), w)
    decreases acts
  {
    if acts != [] {
      ActIsSole(desk, acts[0], w);
      ActKeeps(desk, acts[0], w);
      DeskRunKeeps(Do(desk, acts[0], w), acts[1..], w);
    }
  }

  /** On every run in which only w edits, the projected length is the length of the text after everything
      pending, the cursor is within it, and that text is what was typed at the cursor, in order. */
  lemma SoleCursorStaysInside(initial: string, limit: nat, acts: seq<Act>, w: string, i: nat)
    requires DeskRun(Desk(Start(initial, limit), 0), acts, w)
    ensures var desk := AfterActs(Desk(Start(initial, limit), 0), acts, w);
            i < |desk.system.slots| && desk.system.slots[i].id == w && desk.system.slots[i].synced ==>
              var slot := desk.system.slots[i];
              && Sequential(slot.client.content, PendingOps(slot.client)) == Intended(desk.system.doc, slot)
              && Projected(slot.client) == |Intended(desk.system.doc, slot)|
              && desk.cursor <= Projected(slot.client)
  {
    var desk0 := Desk(Start(initial, limit), 0);
    StartInv(initial, limit);
    assert IdsOf(desk0.system.slots) == {};
    DeskRunKeeps(desk0, acts, w);
    var desk := AfterActs(desk0, acts, w);
    if i < |desk.system.slots| && desk.system.slots[i].id == w && desk.system.slots[i].synced {
      ProjectionExact(desk.system.doc, desk.system.slots[i]);
    }
  }
}
