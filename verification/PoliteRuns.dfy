/** Runs that the users and the history limit can be seen to keep good: nobody types before the first
    snapshot, and no operation is served more than `limit` versions late. */
module PoliteRuns {
  import opened Operations
  import opened Messages
  import opened Documents
  import opened Clients
  import opened Systems
  import opened Convergence
  import opened Replay
  import opened Settling

  predicate Polite(s: System, step: Step)
    requires Enabled(s, step)
  {
    match step
    case TypeOp(i, _) => s.slots[i].synced
    case Serve(i) =>
      var m := s.slots[i].client.outbox[s.slots[i].served];
      m.SubmitOp? ==> Version(s.doc) - m.baseVersion <= s.doc.limit
    case Join(_) => true
    case Leave(_) => true
    case Deliver(_) => true
  }

  predicate PoliteRun(s: System, steps: seq<Step>)
    decreases steps
  {
    steps == [] || (Enabled(s, steps[0]) && Polite(s, steps[0]) && PoliteRun(Perform(s, steps[0]), steps[1..]))
  }

  lemma {:induction false} PoliteConcatenate(s: System, a: seq<Step>, b: seq<Step>)
    requires PoliteRun(s, a) && IsRun(s, a) && PoliteRun(After(s, a), b)
    ensures IsRun(After(s, a), b) && IsRun(s, a + b) && PoliteRun(s, a + b) && After(s, a + b) == After(After(s, a), b)
    decreases a
  {
    PoliteIsRun(After(s, a), b);
    if a == [] {
      assert a + b == b;
    } else {
      StepsSplit(a, b);
      PoliteConcatenate(Perform(s, a[0]), a[1..], b);
    }
  }

  lemma {:induction false} PoliteIsRun(s: System, steps: seq<Step>)
    requires PoliteRun(s, steps)
    ensures IsRun(s, steps)
    decreases steps
  {
    if steps != [] {
      PoliteIsRun(Perform(s, steps[0]), steps[1..]);
    }
  }

  lemma PoliteSteps(s: System, a: Step, b: Step)
    requires Enabled(s, a) && Polite(s, a)
    requires var t := Perform(s, a); Enabled(t, b) && Polite(t, b)
    ensures PoliteRun(s, [a, b]) && IsRun(s, [a, b]) && After(s, [a, b]) == Perform(Perform(s, a), b)
  {
    TwoSteps(s, a, b);
    assert [a, b][1..] == [b] && [b][1..] == [];
    assert PoliteRun(Perform(s, a), [b]);
  }

  lemma PoliteThree(s: System, a: Step, b: Step, c: Step)
    requires Enabled(s, a) && Polite(s, a)
    requires var t := Perform(s, a); Enabled(t, b) && Polite(t, b)
    requires var t := Perform(Perform(s, a), b); Enabled(t, c) && Polite(t, c)
    ensures PoliteRun(s, [a, b, c]) && IsRun(s, [a, b, c])
    ensures After(s, [a, b, c]) == Perform(Perform(Perform(s, a), b), c)
  {
    ThreeSteps(s, a, b, c);
    PoliteSteps(Perform(s, a), b, c);
    assert [a, b, c][1..] == [b, c];
  }

  // ----- The invariant -----

  /** Each client gets one snapshot, in the join prologue, and never asks for another. */
  predicate OneSnapshot(slot: Slot) {
    && (forall k :: 0 <= k < |slot.down| ==> !slot.down[k].ResyncRequired?)
    && (slot.synced ==> forall k :: 0 <= k < |slot.down| ==> !slot.down[k].DocState?)
    && (!slot.synced ==>
          && slot.client.inflight == None && slot.client.queue == []
          && forall j, k :: 0 <= j < k < |slot.down| && slot.down[j].DocState? ==> !slot.down[k].DocState?)
  }

  /** Only operations are sent, on versions the server has reached. */
  predicate SendsOperations(c: Client, version: nat) {
    forall k :: 0 <= k < |c.outbox| ==> c.outbox[k].SubmitOp? && 0 <= c.outbox[k].baseVersion <= version
  }

  predicate PoliteSlot(d: Doc, slot: Slot) {
    OneSnapshot(slot) && SendsOperations(slot.client, Version(d))
  }

  ghost predicate PoliteInv(s: System) {
    Inv(s) && forall k :: 0 <= k < |s.slots| ==> PoliteSlot(s.doc, s.slots[k])
  }

  lemma PumpSendsOperations(c: Client, version: nat)
    requires SendsOperations(c, version) && 0 <= c.version <= version
    ensures SendsOperations(Pump(c), version)
  {
  }

  lemma TypePolite(d: Doc, slot: Slot, op: Operation)
    requires SlotInv(d, slot) && PoliteSlot(d, slot) && slot.synced
    ensures PoliteSlot(d, TypeInto(slot, op))
  {
    var c := slot.client;
    PumpSendsOperations(c.(nextOpNumber := c.nextOpNumber + 1,
                           queue := c.queue + [Pending(OpId(c.clientId, c.nextOpNumber), op, -1)]), Version(d));
  }

  lemma DeliverPoliteClient(d: Doc, slot: Slot)
    requires SlotInv(d, slot) && PoliteSlot(d, slot) && CanDeliver(slot)
    ensures SendsOperations(DeliverTo(slot).client, Version(d))
  {
    var c, m := slot.client, slot.down[0];
    match m
    case DocState(_, _, _) =>
      PumpSendsOperations(c.(content := m.content.value, version := m.version,
                             historyStartVersion := m.historyStartVersion, inflight := None), Version(d));
    case Ack(_, _, _, _, _, _, _) =>
      AckInTurn(d, slot);
      PumpSendsOperations(ApplyAuthoritative(c, m.op, m.version).(inflight := None), Version(d));
    case RemoteOp(_, _, _, _, _) => RemoteInTurn(d, slot);
    case Welcome(_) =>
    case Error(_, _) =>
  }

  lemma DeliverOneSnapshot(d: Doc, slot: Slot)
    requires SlotInv(d, slot) && OneSnapshot(slot) && CanDeliver(slot)
    ensures !(slot.down[0].DocState? && slot.client.inflight.Some?)
    ensures OneSnapshot(DeliverTo(slot))
  {
    var rest := slot.down[1..];
    assert forall k :: 0 <= k < |rest| ==> rest[k] == slot.down[k + 1];
    if slot.down[0].DocState? {
      assert forall k :: 0 < k < |slot.down| ==> !slot.down[k].DocState?;
    }
    if slot.down[0].RemoteOp? {
      RemoteInTurn(d, slot);
    }
    if slot.down[0].Ack? {
      AckInTurn(d, slot);
    }
  }

  lemma PushPolite(d: Doc, d': Doc, slot: Slot, m: ServerMessage, served: nat)
    requires PoliteSlot(d, slot) && Version(d) <= Version(d') && !m.DocState? && !m.ResyncRequired?
    ensures PoliteSlot(d', Push(slot.(served := served), [m]))
  {
    var down := slot.down + [m];
    assert forall k :: 0 <= k < |slot.down| ==> down[k] == slot.down[k];
  }

  // ----- Every polite step keeps it, and forgets nothing -----

  lemma AnswerPolite(s: System, i: nat, doc: Doc, r: ProcessResult)
    requires PoliteInv(s) && i < |s.slots| && !r.Resync?
    requires r.Refused? ==> r.error.Error?
    requires r.Processed? ==> r.ack.Ack? && r.remote.RemoteOp? && Grown(s.doc, doc)
    ensures var t := Answer(s, i, Served(s.slots[i]), doc, r);
            forall k :: 0 <= k < |t.slots| ==> PoliteSlot(t.doc, t.slots[k])
  {
    var slot, t := s.slots[i], Answer(s, i, Served(s.slots[i]), doc, r);
    forall k | 0 <= k < |t.slots| ensures PoliteSlot(t.doc, t.slots[k]) {
      var served := if k == i then slot.served + 1 else s.slots[k].served;
      if r.Refused? {
        PushPolite(s.doc, s.doc, s.slots[k], r.error, served);
      } else {
        PushPolite(s.doc, doc, s.slots[k], if k == i then r.ack else r.remote, served);
      }
    }
  }

  lemma InTimeIsNotResynced(d: Doc, id: string, opId: string, base: int, op: Option<Operation>)
    requires 0 <= base <= Version(d) && Version(d) - base <= d.limit
    ensures !Process(d, id, opId, base, op).1.Resync?
  {
  }

  lemma ServePolite(s: System, i: nat)
    requires PoliteInv(s) && i < |s.slots| && CanServe(s.slots[i]) && Polite(s, Serve(i))
    ensures var t := ServeSlot(s, i); forall k :: 0 <= k < |t.slots| ==> PoliteSlot(t.doc, t.slots[k])
  {
    var slot := s.slots[i];
    var m := slot.client.outbox[slot.served];
    assert m.SubmitOp? && 0 <= m.baseVersion <= Version(s.doc);
    ProcessOutcome(s.doc, slot.id, m.opId, m.baseVersion, m.op);
    InTimeIsNotResynced(s.doc, slot.id, m.opId, m.baseVersion, m.op);
    var (doc, r) := Process(s.doc, slot.id, m.opId, m.baseVersion, m.op);
    AnswerPolite(s, i, doc, r);
  }

  lemma JoinPolite(s: System, requested: string)
    requires PoliteInv(s)
    ensures PoliteInv(Perform(s, Join(requested)))
  {
    StepKeeps(s, Join(requested));
    var t := Perform(s, Join(requested));
    assert t.slots[1..] == s.slots;
    assert forall k :: 0 < k < |t.slots| ==> t.slots[k] == s.slots[k - 1];
  }

  lemma PoliteStepKeeps(s: System, step: Step)
    requires PoliteInv(s) && Enabled(s, step) && Polite(s, step)
    ensures !ForgetsInFlight(s, step) && PoliteInv(Perform(s, step))
  {
    match step
    case Join(requested) => JoinPolite(s, requested);
    case Leave(i) => StepKeeps(s, step);
    case TypeOp(i, op) =>
      StepKeeps(s, step);
      TypePolite(s.doc, s.slots[i], op);
    case Serve(i) =>
      ServePolite(s, i);
      ServeKeeps(s, i);
    case Deliver(i) =>
      DeliverOneSnapshot(s.doc, s.slots[i]);
      DeliverPoliteClient(s.doc, s.slots[i]);
      StepKeeps(s, step);
  }

  /** Polite runs are good: no snapshot ever makes a client forget an operation in flight. */
  lemma {:induction false} PoliteRunsAreGood(s: System, steps: seq<Step>)
    requires PoliteInv(s) && PoliteRun(s, steps)
    ensures GoodRun(s, steps) && IsRun(s, steps) && PoliteInv(After(s, steps))
    decreases steps
  {
    if steps != [] {
      PoliteStepKeeps(s, steps[0]);
      PoliteRunsAreGood(Perform(s, steps[0]), steps[1..]);
    }
  }

  /** Convergence at every moment: on every polite run with any number of clients, each client's pending
      downlink, replayed through its handlers, ends at exactly the server's text and version; and when
      nothing is pending any more everybody shows that text and has sent all that was typed. */
  lemma PoliteRunsConverge(initial: string, limit: nat, steps: seq<Step>, k: nat)
    requires PoliteRun(Start(initial, limit), steps)
    ensures IsRun(Start(initial, limit), steps)
    ensures var s := After(Start(initial, limit), steps);
            k < |s.slots| ==>
              var slot, end := s.slots[k], Drain(s.slots[k].client, s.slots[k].down);
              && end.version == Version(s.doc) && end.content == Text(s.doc)
              && EachVersionOnce(s.doc, slot)
              && (Quiet(s) ==>
                    && slot.client.content == Text(s.doc) && slot.client.version == Version(s.doc)
                    && (slot.client.inflight == None || Acceptable(slot.client.inflight.value.op) ==>
                          slot.client.queue == [] && slot.client.inflight == None))
  {
    var s0 := Start(initial, limit);
    StartInv(initial, limit);
    PoliteRunsAreGood(s0, steps);
    var s := After(s0, steps);
    if k < |s.slots| {
      DrainExact(s.doc, s.slots[k]);
      if Quiet(s) {
        QuietMeansConverged(s, k);
      }
    }
  }
}
