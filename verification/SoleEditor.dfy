/** When only one client edits, the pacing of its queue makes it sequentially consistent: no transformation
    ever takes place, and the server's text is what was typed, applied in order. */
module SoleEditor {
  import opened Operations
  import opened Messages
  import opened Documents
  import opened Clients
  import opened ClientRuns
  import opened Systems
  import opened Convergence
  import opened PoliteRuns
  import opened Settling

  // ----- Applying operations one after the other -----

  function Sequential(text: string, ops: seq<Operation>): string {
    if ops == [] then text else ApplyOp(Sequential(text, ops[..|ops| - 1]), ops[|ops| - 1])
  }

  lemma SequentialLast(text: string, ops: seq<Operation>, op: Operation)
    ensures Sequential(text, ops + [op]) == ApplyOp(Sequential(text, ops), op)
  {
    assert (ops + [op])[..|ops|] == ops;
  }

  lemma {:induction false} SequentialFirst(text: string, op: Operation, ops: seq<Operation>)
    ensures Sequential(text, [op] + ops) == Sequential(ApplyOp(text, op), ops)
  {
    if ops == [] {
      assert [op] + ops == [] + [op];
      SequentialLast(text, [], op);
    } else {
      var init, last := ops[..|ops| - 1], ops[|ops| - 1];
      SequentialFirst(text, op, init);
      assert [op] + ops == ([op] + init) + [last] && ops == init + [last];
      SequentialLast(text, [op] + init, last);
    }
  }

  function TypedOps(events: seq<Event>): seq<Operation> {
    if events == [] then []
    else
      var last := events[|events| - 1];
      var earlier := TypedOps(events[..|events| - 1]);
      if last.Typed? then earlier + [last.op] else earlier
  }

  lemma TypedOpsLast(events: seq<Event>, e: Event)
    ensures TypedOps(events + [e]) == if e.Typed? then TypedOps(events) + [e.op] else TypedOps(events)
  {
    assert (events + [e])[..|events|] == events;
  }

  /** What was typed and the server has not processed yet. */
  function Unapplied(slot: Slot): seq<Operation> {
    (if slot.client.inflight.Some? && CanServe(slot) then [slot.client.inflight.value.op] else [])
    + QueueOps(slot.client.queue)
  }

  // ----- Runs with one editor -----

  /** Only `w` types, once its first snapshot is there, only operations a document accepts; and `w` stays. */
  predicate Sole(s: System, step: Step, w: string)
    requires Enabled(s, step)
  {
    && (step.TypeOp? ==> s.slots[step.i].id == w && s.slots[step.i].synced && Acceptable(step.op))
    && (step.Leave? ==> s.slots[step.i].id != w)
  }

  predicate SoleRun(s: System, steps: seq<Step>, w: string)
    decreases steps
  {
    steps == [] || (Enabled(s, steps[0]) && Sole(s, steps[0], w) && SoleRun(Perform(s, steps[0]), steps[1..], w))
  }

  // ----- The invariant -----

  predicate Idle(c: Client) {
    c.inflight == None && c.queue == [] && forall k :: 0 <= k < |c.outbox| ==> c.outbox[k] == RequestDoc
  }

  predicate AwaitsAck(slot: Slot) {
    slot.client.inflight.Some? && !CanServe(slot)
  }

  predicate AllAcceptable(c: Client) {
    && (c.inflight.Some? ==> Acceptable(c.inflight.value.op))
    && forall k :: 0 <= k < |c.queue| ==> Acceptable(c.queue[k].op)
  }

  /** The server has only snapshots and acknowledgements for the writer. */
  predicate NothingForeign(down: seq<ServerMessage>) {
    forall k :: 0 <= k < |down| ==> down[k].Welcome? || down[k].DocState? || down[k].Ack?
  }

  /** The writer is at the server's version, or one behind while its acknowledgement is on the way; so
      what it submits is based on the current version. */
  ghost predicate InStep(d: Doc, slot: Slot) {
    if AwaitsAck(slot) then
      && Version(d) > 0 && slot.client.version == Version(d) - 1
      && Text(d) == ApplyOp(TextOf(d, Version(d) - 1), slot.client.inflight.value.op)
    else
      && slot.client.version == Version(d)
      && (slot.client.inflight.Some? ==>
            slot.client.outbox != [] &&
            var last := slot.client.outbox[|slot.client.outbox| - 1];
            last.SubmitOp? && last.baseVersion == Version(d))
  }

  ghost predicate InOrder(d: Doc, slot: Slot) {
    Sequential(Text(d), Unapplied(slot)) == Sequential(d.initial, TypedOps(slot.events))
  }

  ghost predicate Writer(d: Doc, slot: Slot) {
    AllAcceptable(slot.client) && NothingForeign(slot.down) && InStep(d, slot) && InOrder(d, slot)
  }

  ghost predicate SoleInv(s: System, w: string) {
    && Inv(s)
    && (forall k :: 0 <= k < |s.slots| ==>
                      if s.slots[k].id == w then Writer(s.doc, s.slots[k]) else Idle(s.slots[k].client))
    && (w !in IdsOf(s.slots) ==> s.doc.log == [])
  }

  // ----- Steps of the writer -----

  lemma PumpsOver(slot: Slot, d: Doc, c: Client)
    requires c.inflight == None && slot.served <= |c.outbox| && AllAcceptable(c) && c.version == Version(d)
    requires forall k :: slot.served <= k < |c.outbox| ==> c.outbox[k] == RequestDoc
    ensures var after := slot.(client := Pump(c));
            && AllAcceptable(after.client) && InStep(d, after) && !AwaitsAck(after)
            && Unapplied(after) == QueueOps(c.queue)
  {
    if c.queue != [] {
      assert QueueOps(c.queue) == [c.queue[0].op] + QueueOps(c.queue[1..]);
    }
  }

  lemma TypingPumps(slot: Slot, d: Doc, op: Operation)
    requires FateKnown(slot.client, slot.served, slot.down) && Acceptable(op)
    requires AllAcceptable(slot.client) && InStep(d, slot)
    ensures var after := slot.(client := QueueOperation(slot.client, op));
            && AllAcceptable(after.client) && InStep(d, after) && Unapplied(after) == Unapplied(slot) + [op]
  {
    var c := slot.client;
    var longer := c.(nextOpNumber := c.nextOpNumber + 1,
                     queue := c.queue + [Pending(OpId(c.clientId, c.nextOpNumber), op, -1)]);
    assert QueueOps(longer.queue) == QueueOps(c.queue) + [op];
    if c.inflight == None {
      PumpsOver(slot, d, longer);
    }
  }

  lemma OneMoreTyped(text: string, unapplied: seq<Operation>, initial: string, events: seq<Event>, op: Operation)
    requires Sequential(text, unapplied) == Sequential(initial, TypedOps(events))
    ensures Sequential(text, unapplied + [op]) == Sequential(initial, TypedOps(events + [Typed(op)]))
  {
    SequentialLast(text, unapplied, op);
    SequentialLast(initial, TypedOps(events), op);
    TypedOpsLast(events, Typed(op));
  }

  lemma TypingKeepsWriter(d: Doc, slot: Slot, op: Operation)
    requires SlotInv(d, slot) && Writer(d, slot) && Acceptable(op)
    ensures Writer(d, TypeInto(slot, op))
  {
    TypingPumps(slot, d, op);
    OneMoreTyped(Text(d), Unapplied(slot), d.initial, slot.events, op);
    assert Unapplied(TypeInto(slot, op)) == Unapplied(slot.(client := QueueOperation(slot.client, op)));
  }

  /** Without operations on the way, a downlink leads nowhere but to the version it starts from. */
  lemma {:induction false} LeadsWithoutOperations(d: Doc, from: Option<int>, down: seq<ServerMessage>)
    requires Leads(d, from, down) && NothingForeign(down) && Replies(down) == []
    ensures from == None || from == Some(Version(d))
    ensures down != [] && down[0].DocState? ==> down[0].version == Version(d)
    decreases down
  {
    if down != [] {
      var m, rest := down[0], down[1..];
      assert forall k :: 0 <= k < |rest| ==> rest[k] == down[k + 1];
      assert !IsReply(m);
      LeadsWithoutOperations(d, if m.DocState? then Some(m.version) else from, rest);
    }
  }

  /** A delivery that leaves the writer in step with the same operations to come leaves all as it was. */
  lemma DeliveryInOrder(d: Doc, slot: Slot)
    requires CanDeliver(slot) && Writer(d, slot)
    requires AllAcceptable(DeliverTo(slot).client) && InStep(d, DeliverTo(slot))
    requires Unapplied(DeliverTo(slot)) == Unapplied(slot)
    ensures Writer(d, DeliverTo(slot))
  {
    var rest := slot.down[1..];
    assert forall k :: 0 <= k < |rest| ==> rest[k] == slot.down[k + 1];
    TypedOpsLast(slot.events, Received(slot.down[0]));
  }

  lemma StateInStep(d: Doc, slot: Slot)
    requires SlotInv(d, slot) && Writer(d, slot) && CanDeliver(slot)
    requires slot.down[0].DocState? && slot.client.inflight == None
    ensures AllAcceptable(DeliverTo(slot).client) && InStep(d, DeliverTo(slot))
    ensures Unapplied(DeliverTo(slot)) == Unapplied(slot) && !AwaitsAck(DeliverTo(slot))
  {
    var c, m := slot.client, slot.down[0];
    LeadsWithoutOperations(d, Position(slot), slot.down);
    PumpsOver(DeliverTo(slot), d, c.(content := m.content.value, version := m.version,
                                     historyStartVersion := m.historyStartVersion, inflight := None));
  }

  lemma AckInStep(d: Doc, slot: Slot)
    requires SlotInv(d, slot) && Writer(d, slot) && CanDeliver(slot) && slot.down[0].Ack?
    ensures AllAcceptable(DeliverTo(slot).client) && InStep(d, DeliverTo(slot))
    ensures Unapplied(DeliverTo(slot)) == Unapplied(slot) && !AwaitsAck(DeliverTo(slot))
  {
    var c, m := slot.client, slot.down[0];
    AckInTurn(d, slot);
    PumpsOver(DeliverTo(slot), d, ApplyAuthoritative(c, m.op, m.version).(inflight := None));
  }

  /** A delivery takes nothing from what is still to come, and leaves the writer in step. */
  lemma DeliveryInStep(d: Doc, slot: Slot)
    requires SlotInv(d, slot) && Writer(d, slot) && CanDeliver(slot)
    requires !(slot.down[0].DocState? && slot.client.inflight.Some?)
    ensures AllAcceptable(DeliverTo(slot).client) && InStep(d, DeliverTo(slot))
    ensures Unapplied(DeliverTo(slot)) == Unapplied(slot)
    ensures AwaitsAck(DeliverTo(slot)) ==> AwaitsAck(slot) && DeliverTo(slot).client.inflight == slot.client.inflight
  {
    match slot.down[0]
    case DocState(_, _, _) => StateInStep(d, slot);
    case Ack(_, _, _, _, _, _, _) => AckInStep(d, slot);
    case Welcome(_) =>
  }

  lemma DeliveryKeepsWriter(d: Doc, slot: Slot)
    requires SlotInv(d, slot) && Writer(d, slot) && CanDeliver(slot)
    requires !(slot.down[0].DocState? && slot.client.inflight.Some?)
    ensures Writer(d, DeliverTo(slot))
  {
    DeliveryInStep(d, slot);
    DeliveryInOrder(d, slot);
  }

  // ----- Steps of the server -----

  /** An operation based on the current version is recorded as typed, up to clamping. */
  lemma CurrentIsNotTransformed(d: Doc, id: string, opId: string, op: Operation)
    requires ValidDoc(d) && Acceptable(op)
    ensures var (doc, r) := Process(d, id, opId, Version(d), Some(op));
            && r.Processed? && r.ack.Ack? && r.remote.RemoteOp? && Grown(d, doc)
            && Text(doc) == ApplyOp(Text(d), op)
  {
    ProcessKeepsValid(d, id, opId, Version(d), Some(op));
    NormalizeSameEffect(op, Text(d));
  }

  lemma AckKeepsWriter(d: Doc, d': Doc, slot: Slot, ack: ServerMessage)
    requires SlotInv(d, slot) && Writer(d, slot) && CanServe(slot) && slot.client.outbox[slot.served].SubmitOp?
    requires Grown(d, d') && ack.Ack? && slot.client.inflight.Some?
    requires Text(d') == ApplyOp(Text(d), slot.client.inflight.value.op)
    ensures Writer(d', Push(Served(slot), [ack]))
  {
    var after, op := Push(Served(slot), [ack]), slot.client.inflight.value.op;
    UnservedOperation(slot);
    GrownTexts(d, d', Version(d));
    assert Unapplied(slot) == [op] + Unapplied(after);
    SequentialFirst(Text(d), op, Unapplied(after));
  }

  lemma BroadcastKeepsSole(s: System, i: nat, doc: Doc, r: ProcessResult, w: string)
    requires SoleInv(s, w) && i < |s.slots| && s.slots[i].id == w && r.Processed?
    requires Writer(doc, Push(Served(s.slots[i]), [r.ack]))
    ensures var t := Answer(s, i, Served(s.slots[i]), doc, r);
            Inv(t) ==> SoleInv(t, w)
  {
    var t := Answer(s, i, Served(s.slots[i]), doc, r);
    assert t.slots[i].id == w;
    forall k | 0 <= k < |t.slots|
      ensures if t.slots[k].id == w then Writer(doc, t.slots[k]) else Idle(t.slots[k].client)
    {
      if k != i {
        assert t.slots[k].id == s.slots[k].id != w;
        assert t.slots[k].client == s.slots[k].client;
      }
    }
  }

  lemma WriterAnswered(s: System, i: nat, doc: Doc, r: ProcessResult, w: string)
    requires SoleInv(s, w) && i < |s.slots| && s.slots[i].id == w && CanServe(s.slots[i])
    requires s.slots[i].client.outbox[s.slots[i].served].SubmitOp? && s.slots[i].client.inflight.Some?
    requires r.Processed? && r.ack.Ack? && Grown(s.doc, doc)
    requires Text(doc) == ApplyOp(Text(s.doc), s.slots[i].client.inflight.value.op)
    ensures var t := Answer(s, i, Served(s.slots[i]), doc, r);
            Inv(t) ==> SoleInv(t, w)
  {
    AckKeepsWriter(s.doc, doc, s.slots[i], r.ack);
    BroadcastKeepsSole(s, i, doc, r, w);
  }

  lemma WriterProcessed(s: System, i: nat, op: Operation) returns (doc: Doc, r: ProcessResult)
    requires ValidDoc(s.doc) && i < |s.slots| && CanServe(s.slots[i]) && Acceptable(op)
    requires var m := s.slots[i].client.outbox[s.slots[i].served];
             m.SubmitOp? && m.baseVersion == Version(s.doc) && m.op == Some(op)
    ensures ServeSlot(s, i) == Answer(s, i, Served(s.slots[i]), doc, r)
    ensures r.Processed? && r.ack.Ack? && Grown(s.doc, doc) && Text(doc) == ApplyOp(Text(s.doc), op)
  {
    var m := s.slots[i].client.outbox[s.slots[i].served];
    CurrentIsNotTransformed(s.doc, s.slots[i].id, m.opId, op);
    var (after, result) := Process(s.doc, s.slots[i].id, m.opId, m.baseVersion, m.op);
    doc, r := after, result;
  }

  lemma WriterServed(s: System, i: nat, w: string)
    requires SoleInv(s, w) && i < |s.slots| && s.slots[i].id == w && CanServe(s.slots[i])
    requires s.slots[i].client.outbox[s.slots[i].served].SubmitOp?
    ensures SoleInv(ServeSlot(s, i), w)
  {
    UnservedOperation(s.slots[i]);
    var doc, r := WriterProcessed(s, i, s.slots[i].client.inflight.value.op);
    ServeKeeps(s, i);
    WriterAnswered(s, i, doc, r, w);
  }

  lemma RequestKeepsWriter(d: Doc, slot: Slot)
    requires SlotInv(d, slot) && Writer(d, slot) && CanServe(slot) && slot.client.outbox[slot.served] == RequestDoc
    ensures Writer(d, Push(Served(slot), [StateMessage(d)]))
  {
    assert Unapplied(Push(Served(slot), [StateMessage(d)])) == Unapplied(slot);
  }

  lemma RequestKeepsSole(s: System, i: nat, w: string)
    requires SoleInv(s, w) && i < |s.slots| && CanServe(s.slots[i])
    requires s.slots[i].client.outbox[s.slots[i].served] == RequestDoc
    ensures SoleInv(ServeSlot(s, i), w)
  {
    ServeKeeps(s, i);
    if s.slots[i].id == w {
      RequestKeepsWriter(s.doc, s.slots[i]);
    }
    ReplaceKeepsSole(s, i, Push(Served(s.slots[i]), [StateMessage(s.doc)]), w);
  }

  lemma ReplaceKeepsSole(s: System, i: nat, slot: Slot, w: string)
    requires SoleInv(s, w) && i < |s.slots| && slot.id == s.slots[i].id && Inv(s.(slots := s.slots[i := slot]))
    requires if slot.id == w then Writer(s.doc, slot) else Idle(slot.client)
    ensures SoleInv(s.(slots := s.slots[i := slot]), w)
  {
    var slots := s.slots[i := slot];
    assert forall k :: 0 <= k < |s.slots| ==> slots[k].id == s.slots[k].id;
    assert IdsOf(slots) == IdsOf(s.slots);
  }

  lemma IdleDelivery(slot: Slot)
    requires CanDeliver(slot) && Idle(slot.client)
    ensures Idle(DeliverTo(slot).client)
  {
  }

  lemma JoinKeepsSole(s: System, requested: string, w: string)
    requires SoleInv(s, w)
    ensures SoleInv(Perform(s, Join(requested)), w)
  {
    StepKeeps(s, Join(requested));
    var t := Perform(s, Join(requested));
    assert t.slots[1..] == s.slots;
    forall k | 0 <= k < |s.slots| ensures s.slots[k].id in IdsOf(t.slots) && s.slots[k].id in IdsOf(s.slots) {
      assert t.slots[k + 1] == s.slots[k];
    }
    assert t.slots[0].id !in IdsOf(s.slots) && t.slots[0].id in IdsOf(t.slots);
    if t.slots[0].id == w {
      assert s.doc.log == [];
      assert Unapplied(t.slots[0]) == [];
    }
  }

  lemma OthersRemain(slots: seq<Slot>, i: nat, w: string)
    requires i < |slots| && slots[i].id != w
    ensures w in IdsOf(slots) ==> w in IdsOf(slots[..i] + slots[i + 1..])
    ensures forall slot :: slot in slots[..i] + slots[i + 1..] ==> slot in slots
  {
    if w in IdsOf(slots) {
      var k :| 0 <= k < |slots| && slots[k].id == w;
      assert (slots[..i] + slots[i + 1..])[if k < i then k else k - 1] == slots[k];
    }
  }

  lemma LeaveKeepsSole(s: System, i: nat, w: string)
    requires SoleInv(s, w) && i < |s.slots| && s.slots[i].id != w
    ensures SoleInv(Perform(s, Leave(i)), w)
  {
    StepKeeps(s, Leave(i));
    OthersRemain(s.slots, i, w);
    assert forall slot :: slot in s.slots ==> if slot.id == w then Writer(s.doc, slot) else Idle(slot.client);
  }

  /** The writer's base is always the current version, so it is never late: nothing has to be assumed of a
    run with one editor for it to be polite. */
  lemma SoleIsPolite(s: System, step: Step, w: string)
    requires SoleInv(s, w) && PoliteInv(s) && Enabled(s, step) && Sole(s, step, w)
    ensures Polite(s, step)
  {
    if step.Serve? {
      var slot := s.slots[step.i];
      assert PoliteSlot(s.doc, slot);
      if slot.id == w {
        UnservedOperation(slot);
      }
    }
  }

  lemma SoleStepKeeps(s: System, step: Step, w: string)
    requires SoleInv(s, w) && PoliteInv(s) && Enabled(s, step) && Sole(s, step, w)
    ensures SoleInv(Perform(s, step), w) && PoliteInv(Perform(s, step)) && !ForgetsInFlight(s, step)
  {
    SoleIsPolite(s, step, w);
    PoliteStepKeeps(s, step);
    match step
    case Join(requested) => JoinKeepsSole(s, requested, w);
    case Leave(i) => LeaveKeepsSole(s, i, w);
    case TypeOp(i, op) =>
      TypingKeepsWriter(s.doc, s.slots[i], op);
      ReplaceKeepsSole(s, i, TypeInto(s.slots[i], op), w);
    case Deliver(i) =>
      if s.slots[i].id == w {
        DeliveryKeepsWriter(s.doc, s.slots[i]);
      } else {
        IdleDelivery(s.slots[i]);
      }
      ReplaceKeepsSole(s, i, DeliverTo(s.slots[i]), w);
    case Serve(i) =>
      if s.slots[i].client.outbox[s.slots[i].served] == RequestDoc {
        RequestKeepsSole(s, i, w);
      } else {
        WriterServed(s, i, w);
      }
  }

  lemma {:induction false} SoleRunKeeps(s: System, steps: seq<Step>, w: string)
    requires SoleInv(s, w) && PoliteInv(s) && SoleRun(s, steps, w)
    ensures IsRun(s, steps) && GoodRun(s, steps) && SoleInv(After(s, steps), w)
    ensures After(s, steps).doc.initial == s.doc.initial
    decreases steps
  {
    if steps != [] {
      SoleStepKeeps(s, steps[0], w);
      InitialKept(s, steps[0]);
      SoleRunKeeps(Perform(s, steps[0]), steps[1..], w);
    }
  }

  lemma InitialKept(s: System, step: Step)
    requires Enabled(s, step)
    ensures Perform(s, step).doc.initial == s.doc.initial
  {
  }

  // ----- What it means -----

  /** Sequential consistency: on every run with one editor, whatever the history limit, the server's text
      followed by what is still to come is what was typed, in order; and once all is quiet the server, and
      everybody else, has exactly that text. */
  lemma SoleEditorSequential(initial: string, limit: nat, steps: seq<Step>, w: string, i: nat)
    requires SoleRun(Start(initial, limit), steps, w)
    ensures IsRun(Start(initial, limit), steps)
    ensures var s := After(Start(initial, limit), steps);
            i < |s.slots| && s.slots[i].id == w ==>
              var typed := TypedOps(s.slots[i].events);
              && Sequential(Text(s.doc), Unapplied(s.slots[i])) == Sequential(initial, typed)
              && (Quiet(s) ==>
                    && Text(s.doc) == Sequential(initial, typed)
                    && forall k :: 0 <= k < |s.slots| ==> s.slots[k].client.content == Sequential(initial, typed))
  {
    var s0 := Start(initial, limit);
    StartInv(initial, limit);
    assert IdsOf(s0.slots) == {};
    SoleRunKeeps(s0, steps, w);
    var s := After(s0, steps);
    if i < |s.slots| && s.slots[i].id == w && Quiet(s) {
      QuietMeansConverged(s, i);
      assert Unapplied(s.slots[i]) == [];
      forall k | 0 <= k < |s.slots| ensures s.slots[k].client.content == Text(s.doc) {
        QuietMeansConverged(s, k);
      }
    }
  }

  /** Nothing else is ever sent to the writer: no other operation, no resynchronisation, no error. */
  lemma WriterIsNeverDisturbed(initial: string, limit: nat, steps: seq<Step>, w: string, i: nat)
    requires SoleRun(Start(initial, limit), steps, w)
    ensures IsRun(Start(initial, limit), steps)
    ensures var s := After(Start(initial, limit), steps);
            i < |s.slots| && s.slots[i].id == w ==> NothingForeign(s.slots[i].down)
  {
    var s0 := Start(initial, limit);
    StartInv(initial, limit);
    assert IdsOf(s0.slots) == {};
    SoleRunKeeps(s0, steps, w);
  }
}
