/** Which key strokes are lost: over every run, what the log holds of a client, what is on its uplink and what
    it still has queued are together what its user typed, in order and each once, iff no operation of that
    connection was served outside the document's gate. */
module Conservation {
  import opened Operations
  import opened Messages
  import opened Documents
  import opened Clients
  import opened ClientRuns
  import opened Systems
  import opened Convergence
  import opened PoliteRuns
  import opened Registry
  import opened Settling

  /** The edits logged under `id` after version `from`. */
  function LoggedFrom(log: seq<HistoryEntry>, from: nat, id: string): seq<Edit> {
    if |log| <= from then []
    else
      var earlier, last := LoggedFrom(log[..|log| - 1], from, id), log[|log| - 1];
      if last.clientId == id then earlier + [Edit(last.opId, last.originalOp)] else earlier
  }

  /** The edits a document accepts. */
  function Accepted(edits: seq<Edit>): seq<Edit> {
    if edits == [] then []
    else
      var earlier, last := Accepted(edits[..|edits| - 1]), edits[|edits| - 1];
      if Acceptable(last.op) then earlier + [last] else earlier
  }

  lemma LoggedLast(log: seq<HistoryEntry>, from: nat, id: string, e: HistoryEntry)
    requires from <= |log|
    ensures LoggedFrom(log + [e], from, id)
            == if e.clientId == id then LoggedFrom(log, from, id) + [Edit(e.opId, e.originalOp)]
               else LoggedFrom(log, from, id)
  {
    assert (log + [e])[..|log|] == log;
  }

  lemma AcceptedLast(edits: seq<Edit>, e: Edit)
    ensures Accepted(edits + [e]) == if Acceptable(e.op) then Accepted(edits) + [e] else Accepted(edits)
  {
    assert (edits + [e])[..|edits|] == edits;
  }

  lemma {:induction false} SentAppend(a: seq<ClientMessage>, b: seq<ClientMessage>)
    ensures SentEdits(a + b) == SentEdits(a) + SentEdits(b)
    decreases b
  {
    if b == [] {
      assert a + b == a;
    } else {
      SentAppend(a, b[..|b| - 1]);
      assert (a + b)[..|a + b| - 1] == a + b[..|b| - 1];
    }
  }

  lemma {:induction false} AcceptedAppend(a: seq<Edit>, b: seq<Edit>)
    ensures Accepted(a + b) == Accepted(a) + Accepted(b)
    decreases b
  {
    if b == [] {
      assert a + b == a;
    } else {
      AcceptedAppend(a, b[..|b| - 1]);
      assert (a + b)[..|a + b| - 1] == a + b[..|b| - 1];
    }
  }

  // ----- Served outside the gate -----

  /** The operation is one a document accepts, and its base version is not. */
  predicate OutsideGate(d: Doc, m: ClientMessage) {
    m.SubmitOp? && m.op.Some? && Acceptable(m.op.value) && !Accepts(d, m.baseVersion)
  }

  /** How many operations the connection now called `name` has had served outside the gate, `before` being
      the number at the start of `steps`. A connection that joins starts afresh. */
  function LateServes(s: System, steps: seq<Step>, name: string, before: nat): nat
    requires IsRun(s, steps)
    decreases steps
  {
    if steps == [] then before
    else LateServes(Perform(s, steps[0]), steps[1..], name, LateAfter(s, steps[0], name, before))
  }

  function LateAfter(s: System, step: Step, name: string, before: nat): nat
    requires Enabled(s, step)
  {
    match step
    case Join(requested) => if ChooseId(IdsOf(s.slots), requested, s.nextClientNumber).0 == name then 0 else before
    case Serve(i) =>
      var slot := s.slots[i];
      if slot.id == name && OutsideGate(s.doc, slot.client.outbox[slot.served]) then before + 1 else before
    case Leave(_) => before
    case TypeOp(_, _) => before
    case Deliver(_) => before
  }

  // ----- What every run keeps -----

  /** The recorders are right. */
  ghost predicate Recorded(d: Doc, slot: Slot) {
    && slot.served <= |slot.client.outbox| && slot.joinedAt <= Version(d)
    && slot.client == Run(NewClient(slot.requested), slot.events)
  }

  /** Of the acceptable operations served, all but `late` are in the log; and all of them when none is late. */
  ghost predicate Kept(d: Doc, slot: Slot, late: nat) {
    && slot.served <= |slot.client.outbox| && slot.joinedAt <= Version(d)
    && var logged := LoggedFrom(d.log, slot.joinedAt, slot.id);
       var served := Accepted(SentEdits(slot.client.outbox[..slot.served]));
       |logged| + late == |served| && (late == 0 ==> logged == served)
  }

  ghost predicate RunInv(s: System, name: string, late: nat) {
    && DistinctIds(s.slots)
    && (forall k :: 0 <= k < |s.slots| ==> Recorded(s.doc, s.slots[k]))
    && (forall k :: 0 <= k < |s.slots| && s.slots[k].id == name ==> Kept(s.doc, s.slots[k], late))
  }

  lemma SendingExtends(c: Client, e: Event)
    ensures c.outbox <= React(c, e).outbox
  {
  }

  lemma ClientStepKeeps(d: Doc, slot: Slot, slot': Slot, e: Event, late: nat)
    requires Recorded(d, slot) && slot' == slot.(client := slot'.client, events := slot'.events, down := slot'.down,
                                                synced := slot'.synced, received := slot'.received)
    requires slot'.client == React(slot.client, e) && slot'.events == slot.events + [e]
    ensures Recorded(d, slot') && (Kept(d, slot, late) ==> Kept(d, slot', late))
  {
    SendingExtends(slot.client, e);
    RunOneMore(slot.requested, slot.events, e);
    assert slot'.client.outbox[..slot.served] == slot.client.outbox[..slot.served];
  }

  /** What serving `m` does to the log. */
  ghost predicate LogsServed(d: Doc, d': Doc, m: ClientMessage, id: string) {
    if m.SubmitOp? && m.op.Some? && Acceptable(m.op.value) && !OutsideGate(d, m) then
      && |d'.log| == |d.log| + 1 && d.log <= d'.log
      && var e := d'.log[|d.log|];
         e.clientId == id && e.opId == m.opId && e.originalOp == m.op.value
    else d'.log == d.log
  }

  /** The submitter's slot, once one message more has been served. */
  lemma ServedKeeps(d: Doc, d': Doc, slot: Slot, messages: seq<ServerMessage>, late: nat)
    requires Kept(d, slot, late) && CanServe(slot) && LogsServed(d, d', slot.client.outbox[slot.served], slot.id)
    ensures Kept(d', Push(Served(slot), messages),
                 if OutsideGate(d, slot.client.outbox[slot.served]) then late + 1 else late)
  {
    var m, sent := slot.client.outbox[slot.served], slot.client.outbox[..slot.served];
    assert slot.client.outbox[..slot.served + 1] == sent + [m] && (sent + [m])[..|sent|] == sent;
    if m.SubmitOp? && m.op.Some? {
      AcceptedLast(SentEdits(sent), Edit(m.opId, m.op.value));
      if Acceptable(m.op.value) && !OutsideGate(d, m) {
        assert d'.log == d.log + [d'.log[|d.log|]];
        LoggedLast(d.log, slot.joinedAt, slot.id, d'.log[|d.log|]);
      }
    }
  }

  /** Any other slot: a new entry is not its own. */
  lemma OthersKeep(d: Doc, d': Doc, slot: Slot, messages: seq<ServerMessage>, late: nat, m: ClientMessage, id: string)
    requires Kept(d, slot, late) && LogsServed(d, d', m, id) && id != slot.id
    ensures Kept(d', Push(slot, messages), late)
  {
    if d'.log != d.log {
      assert d'.log == d.log + [d'.log[|d.log|]];
      LoggedLast(d.log, slot.joinedAt, slot.id, d'.log[|d.log|]);
    }
  }

  /** What a Serve step does to the slots, whatever is served. */
  ghost predicate ServedAll(s: System, i: nat, t: System, own: seq<ServerMessage>, others: seq<ServerMessage>)
    requires i < |s.slots|
  {
    && |t.slots| == |s.slots|
    && forall k :: 0 <= k < |s.slots| ==>
         t.slots[k] == if k == i then Push(Served(s.slots[i]), own) else Push(s.slots[k], others)
  }

  lemma AnswerShape(s: System, i: nat, doc: Doc, r: ProcessResult)
    returns (own: seq<ServerMessage>, others: seq<ServerMessage>)
    requires i < |s.slots| && DistinctIds(s.slots)
    ensures ServedAll(s, i, Answer(s, i, Served(s.slots[i]), doc, r), own, others)
  {
    match r
    case Refused(error) => own, others := [error], [];
    case Resync(required, state) => own, others := [required, state], [];
    case Processed(ack, remote, _, _) => own, others := [ack], [remote];
  }

  lemma ServeShape(s: System, i: nat) returns (own: seq<ServerMessage>, others: seq<ServerMessage>)
    requires i < |s.slots| && CanServe(s.slots[i]) && DistinctIds(s.slots)
    ensures ServedAll(s, i, ServeSlot(s, i), own, others)
  {
    var slot := s.slots[i];
    match slot.client.outbox[slot.served]
    case RequestDoc => own, others := [StateMessage(s.doc)], [];
    case SubmitOp(_, opId, base, op) =>
      var (doc, r) := Process(s.doc, slot.id, opId, base, op);
      own, others := AnswerShape(s, i, doc, r);
  }

  lemma ServeLogs(s: System, i: nat)
    requires i < |s.slots| && CanServe(s.slots[i])
    ensures LogsServed(s.doc, ServeSlot(s, i).doc, s.slots[i].client.outbox[s.slots[i].served], s.slots[i].id)
  {
  }

  lemma ServeKeepsRun(s: System, i: nat, name: string, late: nat)
    requires RunInv(s, name, late) && i < |s.slots| && CanServe(s.slots[i])
    ensures RunInv(ServeSlot(s, i), name, LateAfter(s, Serve(i), name, late))
  {
    var t, m := ServeSlot(s, i), s.slots[i].client.outbox[s.slots[i].served];
    var own, others := ServeShape(s, i);
    ServeLogs(s, i);
    assert LogsServed(s.doc, t.doc, m, s.slots[i].id);
    forall k | 0 <= k < |t.slots| && t.slots[k].id == name
      ensures Kept(t.doc, t.slots[k], LateAfter(s, Serve(i), name, late))
    {
      if k == i {
        ServedKeeps(s.doc, t.doc, s.slots[k], own, late);
      } else {
        OthersKeep(s.doc, t.doc, s.slots[k], others, late, m, s.slots[i].id);
      }
    }
  }

  lemma JoinKeepsRun(s: System, requested: string, name: string, late: nat)
    requires RunInv(s, name, late)
    ensures RunInv(Perform(s, Join(requested)), name, LateAfter(s, Join(requested), name, late))
  {
    StepKeepsDistinct(s, Join(requested));
    var t := Perform(s, Join(requested));
    assert t.slots[0].client.outbox[..0] == [] && Accepted(SentEdits([])) == [];
    assert forall k :: 0 < k < |t.slots| ==> t.slots[k] == s.slots[k - 1];
    assert forall k :: 0 < k < |t.slots| ==> t.slots[0].id != t.slots[k].id;
  }

  lemma ReplaceKeepsRun(s: System, i: nat, slot: Slot, name: string, late: nat)
    requires RunInv(s, name, late) && i < |s.slots| && slot.id == s.slots[i].id && Recorded(s.doc, slot)
    requires Kept(s.doc, s.slots[i], late) ==> Kept(s.doc, slot, late)
    ensures RunInv(s.(slots := s.slots[i := slot]), name, late)
  {
  }

  lemma StepKeepsRun(s: System, step: Step, name: string, late: nat)
    requires RunInv(s, name, late) && Enabled(s, step)
    ensures RunInv(Perform(s, step), name, LateAfter(s, step, name, late))
  {
    match step
    case Join(requested) => JoinKeepsRun(s, requested, name, late);
    case Leave(i) =>
    case Serve(i) => ServeKeepsRun(s, i, name, late);
    case TypeOp(i, op) =>
      ClientStepKeeps(s.doc, s.slots[i], TypeInto(s.slots[i], op), Event.Typed(op), late);
      ReplaceKeepsRun(s, i, TypeInto(s.slots[i], op), name, late);
    case Deliver(i) =>
      ClientStepKeeps(s.doc, s.slots[i], DeliverTo(s.slots[i]), Received(s.slots[i].down[0]), late);
      ReplaceKeepsRun(s, i, DeliverTo(s.slots[i]), name, late);
  }

  lemma {:induction false} RunKeeps(s: System, steps: seq<Step>, name: string, late: nat)
    requires IsRun(s, steps) && RunInv(s, name, late)
    ensures RunInv(After(s, steps), name, LateServes(s, steps, name, late))
    decreases steps
  {
    if steps != [] {
      StepKeepsRun(s, steps[0], name, late);
      RunKeeps(Perform(s, steps[0]), steps[1..], name, LateAfter(s, steps[0], name, late));
    }
  }

  // ----- Key strokes lost, exactly -----

  /** Everything acceptable typed into a connection. */
  function Meant(slot: Slot): seq<Edit> {
    Accepted(TypedEdits(NewClient(slot.requested), slot.events))
  }

  /** Where it can still be: in the log, on the uplink, in the queue. */
  function Present(d: Doc, slot: Slot): seq<Edit>
    requires slot.served <= |slot.client.outbox|
  {
    LoggedFrom(d.log, slot.joinedAt, slot.id) + Accepted(SentEdits(Uplink(slot)) + WaitingEdits(slot.client.queue))
  }

  /** What was typed is what was served, what is on the uplink and what is queued. */
  lemma MeantSplits(slot: Slot)
    requires slot.served <= |slot.client.outbox| && slot.client == Run(NewClient(slot.requested), slot.events)
    ensures Meant(slot) == Accepted(SentEdits(slot.client.outbox[..slot.served]))
                           + Accepted(SentEdits(Uplink(slot)) + WaitingEdits(slot.client.queue))
  {
    var early, late := slot.client.outbox[..slot.served], Uplink(slot);
    var waiting := WaitingEdits(slot.client.queue);
    QueueConservation(slot.requested, slot.events);
    assert slot.client.outbox == early + late;
    SentAppend(early, late);
    calc {
      Backlog(slot.client);
      SentEdits(early) + SentEdits(late) + waiting;
      SentEdits(early) + (SentEdits(late) + waiting);
    }
    AcceptedAppend(SentEdits(early), SentEdits(late) + waiting);
  }

  lemma PresentExactly(d: Doc, slot: Slot, late: nat)
    requires Recorded(d, slot) && Kept(d, slot, late)
    ensures |Present(d, slot)| + late == |Meant(slot)|
    ensures Present(d, slot) == Meant(slot) <==> late == 0
  {
    MeantSplits(slot);
  }

  /** No key stroke is lost, exactly: on every run, whoever types when and whatever is resynchronised, what
      the log has of a connection since it joined, then its uplink, then its queue, is everything acceptable
      typed there, in order and each once, iff none of its operations was served outside the gate. And the
      number of edits lost is the number of those operations. */
  lemma KeyStrokesLostExactly(initial: string, limit: nat, steps: seq<Step>, k: nat)
    requires IsRun(Start(initial, limit), steps)
    ensures var s := After(Start(initial, limit), steps);
            k < |s.slots| ==>
              var slot, late := s.slots[k], LateServes(Start(initial, limit), steps, s.slots[k].id, 0);
              && slot.served <= |slot.client.outbox|
              && (Present(s.doc, slot) == Meant(slot) <==> late == 0)
              && |Present(s.doc, slot)| + late == |Meant(slot)|
  {
    var s0 := Start(initial, limit);
    var s := After(s0, steps);
    if k < |s.slots| {
      RunKeeps(s0, steps, s.slots[k].id, 0);
      PresentExactly(s.doc, s.slots[k], LateServes(s0, steps, s.slots[k].id, 0));
    }
  }

  /** So when nothing is pending any more, everything acceptable that was typed is in the log iff no
      operation was late. */
  lemma QuietLogIsEverything(initial: string, limit: nat, steps: seq<Step>, k: nat)
    requires IsRun(Start(initial, limit), steps)
    ensures var s := After(Start(initial, limit), steps);
            k < |s.slots| && Quiet(s) && s.slots[k].client.queue == [] ==>
              (LoggedFrom(s.doc.log, s.slots[k].joinedAt, s.slots[k].id) == Meant(s.slots[k])
               <==> LateServes(Start(initial, limit), steps, s.slots[k].id, 0) == 0)
  {
    KeyStrokesLostExactly(initial, limit, steps, k);
    var s := After(Start(initial, limit), steps);
    if k < |s.slots| && Quiet(s) && s.slots[k].client.queue == [] {
      assert !CanServe(s.slots[k]);
      assert Uplink(s.slots[k]) == [] && SentEdits([]) + WaitingEdits([]) == [];
      assert Present(s.doc, s.slots[k]) == LoggedFrom(s.doc.log, s.slots[k].joinedAt, s.slots[k].id);
    }
  }

  // ----- Runs that lose nothing -----

  lemma {:induction false} PoliteNeverLate(s: System, steps: seq<Step>, name: string)
    requires PoliteInv(s) && PoliteRun(s, steps)
    ensures IsRun(s, steps) && PoliteInv(After(s, steps)) && LateServes(s, steps, name, 0) == 0
    decreases steps
  {
    if steps != [] {
      PoliteStepKeeps(s, steps[0]);
      PoliteNeverLate(Perform(s, steps[0]), steps[1..], name);
    }
  }

  lemma {:induction false} AllAccepted(edits: seq<Edit>)
    requires forall k :: 0 <= k < |edits| ==> Acceptable(edits[k].op)
    ensures Accepted(edits) == edits
  {
    if edits != [] {
      AllAccepted(edits[..|edits| - 1]);
    }
  }

  predicate TypesAcceptably(typed: seq<Edit>) {
    forall k :: 0 <= k < |typed| ==> Acceptable(typed[k].op)
  }

  lemma InFlightAcceptable(slot: Slot)
    requires FateKnown(slot.client, slot.served, slot.down)
    requires slot.client == Run(NewClient(slot.requested), slot.events)
    requires TypesAcceptably(TypedEdits(NewClient(slot.requested), slot.events))
    ensures slot.client.inflight.Some? ==> Acceptable(slot.client.inflight.value.op)
  {
    QueueConservation(slot.requested, slot.events);
    if slot.client.inflight.Some? {
      var sent, typed := SentEdits(slot.client.outbox), TypedEdits(NewClient(slot.requested), slot.events);
      assert sent[|sent| - 1].op == slot.client.inflight.value.op && typed[|sent| - 1] == sent[|sent| - 1];
    }
  }

  /** On every polite run nothing is ever lost: when nothing is pending any more, the log holds exactly what
      was typed since joining, in order and each once. */
  lemma NoKeyStrokeLost(initial: string, limit: nat, steps: seq<Step>, k: nat)
    requires PoliteRun(Start(initial, limit), steps)
    ensures IsRun(Start(initial, limit), steps)
    ensures var s := After(Start(initial, limit), steps);
            k < |s.slots| && TypesAcceptably(TypedEdits(NewClient(s.slots[k].requested), s.slots[k].events)) ==>
              var slot, typed := s.slots[k], TypedEdits(NewClient(s.slots[k].requested), s.slots[k].events);
              && slot.served <= |slot.client.outbox| && Present(s.doc, slot) == typed
              && (Quiet(s) ==> LoggedFrom(s.doc.log, slot.joinedAt, slot.id) == typed)
  {
    var s0 := Start(initial, limit);
    StartInv(initial, limit);
    PoliteNeverLate(s0, steps, "");
    var s := After(s0, steps);
    if k < |s.slots| && TypesAcceptably(TypedEdits(NewClient(s.slots[k].requested), s.slots[k].events)) {
      PoliteNeverLate(s0, steps, s.slots[k].id);
      KeyStrokesLostExactly(initial, limit, steps, k);
      AllAccepted(TypedEdits(NewClient(s.slots[k].requested), s.slots[k].events));
      if Quiet(s) {
        QuietMeansConverged(s, k);
        InFlightAcceptable(s.slots[k]);
        QuietLogIsEverything(initial, limit, steps, k);
      }
    }
  }
}
