/** Which version an edit is bound to, on every polite run: that on the screen when it is sent in the event
    that typed it; otherwise that at which all the edits in front of it have been logged. */
module Histories {
  import opened Operations
  import opened Intention
  import opened Messages
  import opened Documents
  import opened Clients
  import opened ClientRuns
  import opened Systems
  import opened Convergence
  import opened PoliteRuns
  import opened Conservation
  import opened Fidelity
  import opened QueuedEdits

  // ----- Own entries -----

  lemma {:induction false} OwnGrows(log: seq<HistoryEntry>, more: seq<HistoryEntry>, id: string, u: nat, v: nat)
    requires v <= |log| && log <= more
    ensures Own(more, id, u, v) == Own(log, id, u, v)
  {
    if v > u {
      OwnGrows(log, more, id, u, v - 1);
    }
  }

  lemma {:induction false} OwnSplits(log: seq<HistoryEntry>, id: string, u: nat, v: nat, w: nat)
    requires u <= v <= w <= |log|
    ensures Own(log, id, u, w) == Own(log, id, u, v) + Own(log, id, v, w)
  {
    if v < w {
      OwnSplits(log, id, u, v, w - 1);
    }
  }

  /** How many operations of the connection the log has up to version v. */
  function Entries(d: Doc, slot: Slot, v: int): nat
    requires v <= Version(d)
  {
    if v < 0 then 0 else |Own(d.log, slot.id, slot.joinedAt, v)|
  }

  lemma EntriesGrow(d: Doc, d': Doc, slot: Slot, v: int)
    requires v <= Version(d) && d.log <= d'.log
    ensures Entries(d', slot, v) == Entries(d, slot, v)
  {
    if v >= 0 {
      OwnGrows(d.log, d'.log, slot.id, slot.joinedAt, v);
    }
  }

  // ----- What every polite run keeps -----

  /** The reply to the connection's own operation is an ACK, the news of another's a REMOTE_OP. */
  predicate Attributed(d: Doc, id: string, down: seq<ServerMessage>) {
    forall k :: 0 <= k < |down| && (down[k].Ack? || down[k].RemoteOp?) ==>
                  1 <= down[k].version <= Version(d) && (d.log[down[k].version - 1].clientId == id <==> down[k].Ack?)
  }

  /** `m` carries the operation in flight. */
  predicate SubmitOf(m: ClientMessage, p: Pending) {
    m.SubmitOp? && m.op == Some(p.op) && m.baseVersion == p.baseVersion
  }

  /** Client c, at the moment it was in, had seen exactly its own operations that were sent and no longer in
      flight, on a version of the server. */
  ghost predicate Settled(d: Doc, slot: Slot, c: Client) {
    && Shows(d, c) && slot.joinedAt <= c.version
    && Entries(d, slot, c.version) + InFlightCount(c) == |c.outbox|
    && (c.inflight == None ==> c.queue == [])
    && (c.inflight.Some? ==> SubmitOf(c.outbox[|c.outbox| - 1], c.inflight.value))
  }

  /** The message number m was sent on a version that has the m operations sent before it. */
  predicate SentInTurn(d: Doc, slot: Slot, m: nat)
    requires m < |slot.client.outbox|
  {
    var sent := slot.client.outbox[m];
    && sent.SubmitOp? && sent.op.Some?
    && slot.joinedAt <= sent.baseVersion <= Version(d) && Entries(d, slot, sent.baseVersion) == m
  }

  predicate LoggedAsSent(d: Doc, slot: Slot, k: nat)
    requires k < Version(d)
  {
    var e, j := d.log[k], Entries(d, slot, k);
    && j < slot.served <= |slot.client.outbox|
    && slot.client.outbox[j].SubmitOp? && slot.client.outbox[j].op == Some(e.originalOp)
    && slot.client.outbox[j].baseVersion == e.baseVersion
  }

  ghost predicate HistoryInv(d: Doc, slot: Slot) {
    && slot.joinedAt <= Version(d)
    && Attributed(d, slot.id, slot.down)
    && (!slot.synced ==>
          && slot.client.outbox == []
          && forall k :: 0 <= k < |slot.down| && slot.down[k].DocState? ==> slot.down[k].version == slot.joinedAt)
    && (slot.synced ==> Settled(d, slot, slot.client))
    && (forall m :: 0 <= m < |slot.client.outbox| ==> SentInTurn(d, slot, m))
    && (forall k :: slot.joinedAt <= k < Version(d) && d.log[k].clientId == slot.id ==> LoggedAsSent(d, slot, k))
    && (forall n :: 0 <= n < |slot.events| && slot.events[n].Typed? ==>
                      Settled(d, slot, Run(NewClient(slot.requested), slot.events[..n])))
  }

  /** Every entry is the recorded form of what was submitted. */
  predicate AllOrdered(initial: string, log: seq<HistoryEntry>) {
    log == [] ||
    var earlier, e := log[..|log| - 1], log[|log| - 1];
    && AllOrdered(initial, earlier)
    && 0 <= e.baseVersion <= |earlier| && e.op == Ordered(initial, Ops(earlier), e.baseVersion, e.originalOp)
  }

  ghost predicate TracedInv(s: System) {
    && PoliteInv(s)
    && AllOrdered(s.doc.initial, s.doc.log)
    && forall k :: 0 <= k < |s.slots| ==> HistoryInv(s.doc, s.slots[k])
  }

  // ----- The client's own steps -----

  /** Pumping sends at most one operation, on the version held. */
  lemma PumpSettles(d: Doc, slot: Slot, c: Client)
    requires Shows(d, c) && slot.joinedAt <= c.version && c.inflight == None
    requires Entries(d, slot, c.version) == |c.outbox|
    ensures Settled(d, slot, Pump(c))
    ensures c.outbox <= Pump(c).outbox && |Pump(c).outbox| <= |c.outbox| + 1
    ensures |Pump(c).outbox| > |c.outbox| ==> SentInTurn(d, slot.(client := Pump(c)), |c.outbox|)
  {
  }

  lemma OutboxGrows(d: Doc, slot: Slot, slot': Slot)
    requires slot' == slot.(client := slot'.client, down := slot'.down, synced := slot'.synced,
                            received := slot'.received, events := slot'.events)
    requires slot.client.outbox <= slot'.client.outbox
    ensures forall m :: 0 <= m < |slot.client.outbox| && SentInTurn(d, slot, m) ==> SentInTurn(d, slot', m)
    ensures forall k :: 0 <= k < Version(d) && LoggedAsSent(d, slot, k) ==> LoggedAsSent(d, slot', k)
  {
  }

  /** One more event: what was typed before is what it was. */
  lemma EventsGrow(d: Doc, slot: Slot, slot': Slot, e: Event)
    requires HistoryInv(d, slot) && slot.client == Run(NewClient(slot.requested), slot.events)
    requires slot'.id == slot.id && slot'.joinedAt == slot.joinedAt && slot'.requested == slot.requested
    requires slot'.events == slot.events + [e] && (e.Typed? ==> slot.synced)
    ensures forall n :: 0 <= n < |slot'.events| && slot'.events[n].Typed? ==>
                          Settled(d, slot', Run(NewClient(slot'.requested), slot'.events[..n]))
  {
    forall n | 0 <= n < |slot'.events| && slot'.events[n].Typed?
      ensures Settled(d, slot', Run(NewClient(slot'.requested), slot'.events[..n]))
    {
      if n == |slot.events| {
        assert slot'.events[..n] == slot.events;
      } else {
        assert slot'.events[n] == slot.events[n] && slot'.events[..n] == slot.events[..n];
      }
    }
  }

  lemma TypeSettles(d: Doc, slot: Slot, op: Operation)
    requires HistoryInv(d, slot) && slot.synced
    ensures var slot' := TypeInto(slot, op);
            && slot.client.outbox <= slot'.client.outbox && Settled(d, slot', slot'.client)
            && forall m :: |slot.client.outbox| <= m < |slot'.client.outbox| ==> SentInTurn(d, slot', m)
  {
    var c := slot.client;
    if c.inflight == None {
      PumpSettles(d, slot, c.(nextOpNumber := c.nextOpNumber + 1,
                              queue := c.queue + [Pending(OpId(c.clientId, c.nextOpNumber), op, -1)]));
    }
  }

  lemma TypeTraced(d: Doc, slot: Slot, op: Operation)
    requires SlotInv(d, slot) && HistoryInv(d, slot) && slot.synced
    ensures HistoryInv(d, TypeInto(slot, op))
  {
    var slot' := TypeInto(slot, op);
    TypeSettles(d, slot, op);
    OutboxGrows(d, slot, slot');
    EventsGrow(d, slot, slot', Event.Typed(op));
  }

  lemma RestAttributed(d: Doc, id: string, down: seq<ServerMessage>)
    requires down != [] && Attributed(d, id, down)
    ensures Attributed(d, id, down[1..])
  {
    var rest := down[1..];
    assert forall k :: 0 <= k < |rest| ==> rest[k] == down[k + 1];
  }

  /** What a delivered message does to the client. */
  lemma DeliverSettles(d: Doc, slot: Slot)
    requires SlotInv(d, slot) && PoliteSlot(d, slot) && HistoryInv(d, slot) && CanDeliver(slot)
    ensures var slot' := DeliverTo(slot);
            && slot.client.outbox <= slot'.client.outbox
            && (slot'.synced ==> Settled(d, slot', slot'.client))
            && (!slot'.synced ==> slot'.client.outbox == [])
            && (forall m :: |slot.client.outbox| <= m < |slot'.client.outbox| ==> SentInTurn(d, slot', m))
  {
    var c, m := slot.client, slot.down[0];
    match m
    case DocState(_, _, _) => StateSettles(d, slot);
    case Ack(_, _, _, _, _, _, _) => AckSettles(d, slot);
    case RemoteOp(_, _, _, _, _) => RemoteSettles(d, slot);
    case Welcome(_) =>
    case Error(_, _) =>
  }

  lemma StateSettles(d: Doc, slot: Slot)
    requires SlotInv(d, slot) && PoliteSlot(d, slot) && HistoryInv(d, slot) && CanDeliver(slot)
    requires slot.down[0].DocState?
    ensures DeliverTo(slot).client.outbox == slot.client.outbox && Settled(d, DeliverTo(slot), DeliverTo(slot).client)
  {
    assert !slot.synced;
    assert slot.down[0].version == slot.joinedAt && Own(d.log, slot.id, slot.joinedAt, slot.joinedAt) == [];
  }

  lemma AckCounts(d: Doc, slot: Slot)
    requires SlotInv(d, slot) && HistoryInv(d, slot) && CanDeliver(slot) && slot.down[0].Ack?
    ensures slot.joinedAt < slot.down[0].version <= Version(d)
    ensures Entries(d, slot, slot.down[0].version) == |slot.client.outbox|
  {
    AckInTurn(d, slot);
    assert Settled(d, slot, slot.client);
  }

  lemma AckSettles(d: Doc, slot: Slot)
    requires SlotInv(d, slot) && HistoryInv(d, slot) && CanDeliver(slot) && slot.down[0].Ack?
    ensures var slot' := DeliverTo(slot);
            && slot.client.outbox <= slot'.client.outbox && Settled(d, slot', slot'.client)
            && forall m :: |slot.client.outbox| <= m < |slot'.client.outbox| ==> SentInTurn(d, slot', m)
  {
    var c, m := slot.client, slot.down[0];
    AckCounts(d, slot);
    AckInTurn(d, slot);
    AppliesNextEntry(d, c, m);
    var applied := ApplyAuthoritative(c, m.op, m.version).(inflight := None);
    PumpSettles(d, slot, applied);
    AckPumped(d, slot, applied);
  }

  lemma AckPumped(d: Doc, slot: Slot, applied: Client)
    requires CanDeliver(slot) && slot.down[0].Ack? && MatchingAck(slot.client, slot.down[0])
    requires applied == ApplyAuthoritative(slot.client, slot.down[0].op, slot.down[0].version).(inflight := None)
    requires slot.client.outbox <= Pump(applied).outbox && Settled(d, slot, Pump(applied))
    requires |Pump(applied).outbox| <= |slot.client.outbox| + 1
    requires |Pump(applied).outbox| > |slot.client.outbox| ==>
               SentInTurn(d, slot.(client := Pump(applied)), |slot.client.outbox|)
    ensures var slot' := DeliverTo(slot);
            && slot.client.outbox <= slot'.client.outbox && Settled(d, slot', slot'.client)
            && forall m :: |slot.client.outbox| <= m < |slot'.client.outbox| ==> SentInTurn(d, slot', m)
  {
    assert DeliverTo(slot).client == Pump(applied);
  }

  lemma RemoteCounts(d: Doc, slot: Slot)
    requires SlotInv(d, slot) && HistoryInv(d, slot) && CanDeliver(slot) && slot.down[0].RemoteOp?
    ensures slot.joinedAt < slot.down[0].version <= Version(d)
    ensures Entries(d, slot, slot.down[0].version) + InFlightCount(slot.client) == |slot.client.outbox|
  {
    RemoteInTurn(d, slot);
    assert Settled(d, slot, slot.client);
  }

  lemma RemoteSettles(d: Doc, slot: Slot)
    requires SlotInv(d, slot) && HistoryInv(d, slot) && CanDeliver(slot) && slot.down[0].RemoteOp?
    ensures DeliverTo(slot).client.outbox == slot.client.outbox && Settled(d, DeliverTo(slot), DeliverTo(slot).client)
  {
    var c, m := slot.client, slot.down[0];
    RemoteCounts(d, slot);
    RemoteInTurn(d, slot);
    AppliesNextEntry(d, c, m);
    assert Handle(c, m) == ApplyAuthoritative(c, m.op, m.version);
  }

  lemma DeliverTraced(d: Doc, slot: Slot)
    requires SlotInv(d, slot) && PoliteSlot(d, slot) && HistoryInv(d, slot) && CanDeliver(slot)
    ensures HistoryInv(d, DeliverTo(slot))
  {
    var slot' := DeliverTo(slot);
    DeliverSettles(d, slot);
    RestAttributed(d, slot.id, slot.down);
    OutboxGrows(d, slot, slot');
    EventsGrow(d, slot, slot', Received(slot.down[0]));
    assert forall k :: 0 <= k < |slot'.down| ==> slot'.down[k] == slot.down[k + 1];
  }

  // ----- Steps of the server -----

  /** Without an ACK on the way, nothing of its own lies ahead of the client. */
  lemma {:induction false} NothingOwnAhead(d: Doc, id: string, v: nat, down: seq<ServerMessage>)
    requires Leads(d, Some(v), down) && Attributed(d, id, down) && v <= Version(d)
    requires forall k :: 0 <= k < |down| ==> !down[k].Ack?
    ensures Own(d.log, id, v, Version(d)) == []
    decreases down
  {
    if down != [] {
      RestAttributed(d, id, down);
      if down[0].RemoteOp? {
        OwnFirst(d.log, id, v, Version(d));
        NothingOwnAhead(d, id, v + 1, down[1..]);
      } else {
        NothingOwnAhead(d, id, v, down[1..]);
      }
    }
  }

  /** The operation about to be served is the one in flight, and everything sent before it is in the log. */
  lemma AllBeforeLogged(d: Doc, slot: Slot)
    requires SlotInv(d, slot) && PoliteSlot(d, slot) && HistoryInv(d, slot) && CanServe(slot)
    ensures slot.client.outbox[slot.served].SubmitOp?
    ensures Entries(d, slot, Version(d)) == slot.served == |slot.client.outbox| - 1
  {
    var c := slot.client;
    assert c.outbox[slot.served].SubmitOp?;
    UnservedOperation(slot);
    assert slot.synced;
    forall k | 0 <= k < |slot.down| ensures !slot.down[k].Ack? {
      NoAckWhileUnserved(slot, k);
    }
    NothingOwnAhead(d, slot.id, c.version, slot.down);
    OwnSplits(d.log, slot.id, slot.joinedAt, c.version, Version(d));
  }

  /** A longer log changes nothing of the past. */
  lemma SettledGrows(d: Doc, d': Doc, slot: Slot, slot': Slot, c: Client)
    requires Settled(d, slot, c) && Grown(d, d') && slot'.id == slot.id && slot'.joinedAt == slot.joinedAt
    ensures Settled(d', slot', c)
  {
    GrownTexts(d, d', c.version);
    EntriesGrow(d, d', slot, c.version);
  }

  /** The slot after a new entry: `served` and the downlink may have grown. */
  ghost predicate Later(slot: Slot, slot': Slot, messages: seq<ServerMessage>) {
    && slot' == slot.(served := slot'.served, down := slot.down + messages)
    && slot.served <= slot'.served <= |slot.client.outbox|
  }

  lemma GrowsTraced(d: Doc, d': Doc, slot: Slot, slot': Slot, m: ServerMessage)
    requires HistoryInv(d, slot) && Grown(d, d') && Later(slot, slot', [m])
    requires (m.Ack? || m.RemoteOp?) && m.version == Version(d')
    requires m.Ack? <==> d'.log[Version(d)].clientId == slot.id
    requires m.Ack? ==> LoggedAsSent(d', slot', Version(d))
    ensures HistoryInv(d', slot')
  {
    if slot.synced {
      SettledGrows(d, d', slot, slot', slot.client);
    }
    forall i | 0 <= i < |slot'.client.outbox| ensures SentInTurn(d', slot', i) {
      assert SentInTurn(d, slot, i);
      EntriesGrow(d, d', slot, slot.client.outbox[i].baseVersion);
    }
    forall k | slot.joinedAt <= k < Version(d') && d'.log[k].clientId == slot.id ensures LoggedAsSent(d', slot', k) {
      if k < Version(d) {
        assert d'.log[k] == d.log[k] && LoggedAsSent(d, slot, k);
        EntriesGrow(d, d', slot, k);
      }
    }
    forall n | 0 <= n < |slot'.events| && slot'.events[n].Typed?
      ensures Settled(d', slot', Run(NewClient(slot'.requested), slot'.events[..n]))
    {
      SettledGrows(d, d', slot, slot', Run(NewClient(slot.requested), slot.events[..n]));
    }
    assert forall k :: 0 <= k < |slot.down| ==> slot'.down[k] == slot.down[k];
    assert forall k :: 0 <= k < Version(d) ==> d'.log[k] == d.log[k];
  }

  lemma RefusalTraced(d: Doc, slot: Slot, m: ServerMessage)
    requires HistoryInv(d, slot) && CanServe(slot) && m.Error?
    ensures HistoryInv(d, Push(Served(slot), [m]))
  {
    var slot' := Push(Served(slot), [m]);
    forall k | slot.joinedAt <= k < Version(d) && d.log[k].clientId == slot.id ensures LoggedAsSent(d, slot', k) {
      assert LoggedAsSent(d, slot, k);
    }
    forall i | 0 <= i < |slot'.client.outbox| ensures SentInTurn(d, slot', i) {
      assert SentInTurn(d, slot, i);
    }
    forall n | 0 <= n < |slot'.events| && slot'.events[n].Typed?
      ensures Settled(d, slot', Run(NewClient(slot'.requested), slot'.events[..n]))
    {
      assert Settled(d, slot, Run(NewClient(slot.requested), slot.events[..n]));
    }
    assert forall k :: 0 <= k < |slot.down| ==> slot'.down[k] == slot.down[k];
  }

  lemma OrderedNext(d: Doc, e: HistoryEntry)
    requires AllOrdered(d.initial, d.log) && 0 <= e.baseVersion <= Version(d)
    requires e.op == Ordered(d.initial, Ops(d.log), e.baseVersion, e.originalOp)
    ensures AllOrdered(d.initial, d.log + [e])
  {
    assert (d.log + [e])[..|d.log|] == d.log;
  }

  /** The slots after an operation of connection i was logged. */
  lemma ProcessedTraced(s: System, i: nat, m: ClientMessage, k: nat)
    requires TracedInv(s) && i < |s.slots| && CanServe(s.slots[i]) && k < |s.slots|
    requires m == s.slots[i].client.outbox[s.slots[i].served] && m.SubmitOp? && m.op.Some?
    requires Acceptable(m.op.value) && Accepts(s.doc, m.baseVersion)
    ensures var t := ServeSlot(s, i); |t.slots| == |s.slots| && HistoryInv(t.doc, t.slots[k])
  {
    var slot, t := s.slots[i], ServeSlot(s, i);
    var e := EntryFor(s.doc, slot.id, m.opId, m.baseVersion, m.op.value);
    assert t.doc == s.doc.(log := s.doc.log + [e]) && t.doc.log[Version(s.doc)] == e;
    AllBeforeLogged(s.doc, slot);
    EntriesGrow(s.doc, t.doc, slot, Version(s.doc));
    if k == i {
      GrowsTraced(s.doc, t.doc, slot, Push(Served(slot), [AckFor(e)]), AckFor(e));
    } else {
      GrowsTraced(s.doc, t.doc, s.slots[k], Push(s.slots[k], [RemoteFor(e)]), RemoteFor(e));
    }
  }

  /** The slots after an operation of connection i was refused. */
  lemma RefusedTraced(s: System, i: nat, m: ClientMessage, k: nat)
    requires TracedInv(s) && i < |s.slots| && CanServe(s.slots[i]) && k < |s.slots|
    requires m == s.slots[i].client.outbox[s.slots[i].served] && m.SubmitOp? && m.op.Some? && !Acceptable(m.op.value)
    ensures var t := ServeSlot(s, i); t.doc == s.doc && |t.slots| == |s.slots| && HistoryInv(t.doc, t.slots[k])
  {
    RefusalTraced(s.doc, s.slots[i], Process(s.doc, s.slots[i].id, m.opId, m.baseVersion, m.op).1.error);
  }

  lemma ServeTraced(s: System, i: nat)
    requires TracedInv(s) && i < |s.slots| && CanServe(s.slots[i]) && Polite(s, Serve(i))
    ensures var t := ServeSlot(s, i);
            AllOrdered(t.doc.initial, t.doc.log) && forall k :: 0 <= k < |t.slots| ==> HistoryInv(t.doc, t.slots[k])
  {
    var slot, t := s.slots[i], ServeSlot(s, i);
    var m := slot.client.outbox[slot.served];
    assert PoliteSlot(s.doc, slot) && SentInTurn(s.doc, slot, slot.served);
    if Acceptable(m.op.value) {
      forall k | 0 <= k < |t.slots| ensures HistoryInv(t.doc, t.slots[k]) {
        ProcessedTraced(s, i, m, k);
      }
      OrderedNext(s.doc, EntryFor(s.doc, slot.id, m.opId, m.baseVersion, m.op.value));
    } else {
      forall k | 0 <= k < |t.slots| ensures HistoryInv(t.doc, t.slots[k]) {
        RefusedTraced(s, i, m, k);
      }
    }
  }

  lemma JoinTraced(s: System, requested: string)
    requires TracedInv(s)
    ensures TracedInv(Perform(s, Join(requested)))
  {
    PoliteStepKeeps(s, Join(requested));
    var t := Perform(s, Join(requested));
    assert forall k :: 0 < k < |t.slots| ==> t.slots[k] == s.slots[k - 1];
    assert HistoryInv(t.doc, t.slots[0]);
  }

  lemma ReplaceTraced(s: System, i: nat, slot: Slot)
    requires TracedInv(s) && i < |s.slots| && HistoryInv(s.doc, slot) && PoliteInv(s.(slots := s.slots[i := slot]))
    ensures TracedInv(s.(slots := s.slots[i := slot]))
  {
  }

  lemma StepTraced(s: System, step: Step)
    requires TracedInv(s) && Enabled(s, step) && Polite(s, step)
    ensures TracedInv(Perform(s, step))
  {
    PoliteStepKeeps(s, step);
    match step
    case Join(requested) => JoinTraced(s, requested);
    case Leave(i) =>
    case Serve(i) => ServeTraced(s, i);
    case TypeOp(i, op) =>
      TypeTraced(s.doc, s.slots[i], op);
      ReplaceTraced(s, i, TypeInto(s.slots[i], op));
    case Deliver(i) =>
      DeliverTraced(s.doc, s.slots[i]);
      ReplaceTraced(s, i, DeliverTo(s.slots[i]));
  }

  lemma {:induction false} RunTraced(s: System, steps: seq<Step>)
    requires TracedInv(s) && PoliteRun(s, steps)
    ensures IsRun(s, steps) && TracedInv(After(s, steps))
    decreases steps
  {
    if steps != [] {
      StepTraced(s, steps[0]);
      RunTraced(Perform(s, steps[0]), steps[1..]);
    }
  }

  lemma Traced(initial: string, limit: nat, steps: seq<Step>)
    requires PoliteRun(Start(initial, limit), steps)
    ensures IsRun(Start(initial, limit), steps) && TracedInv(After(Start(initial, limit), steps))
  {
    StartInv(initial, limit);
    RunTraced(Start(initial, limit), steps);
  }

  // ----- What was sent, and when -----

  /** The client of connection `slot` at the moment of its event n. */
  function Then(slot: Slot, n: nat): Client
    requires n <= |slot.events|
  {
    Run(NewClient(slot.requested), slot.events[..n])
  }

  lemma {:induction false} ThenGrows(slot: Slot, n: nat, m: nat)
    requires n <= m <= |slot.events|
    ensures Then(slot, n).outbox <= Then(slot, m).outbox
    ensures var c := NewClient(slot.requested); TypedEdits(c, slot.events[..n]) <= TypedEdits(c, slot.events[..m])
  {
    if n < m {
      ThenGrows(slot, n, m - 1);
      assert slot.events[..m][..m - 1] == slot.events[..m - 1];
      SendingExtends(Then(slot, m - 1), slot.events[m - 1]);
    }
  }

  lemma {:induction false} SentAll(outbox: seq<ClientMessage>)
    requires forall k :: 0 <= k < |outbox| ==> outbox[k].SubmitOp? && outbox[k].op.Some?
    ensures |SentEdits(outbox)| == |outbox|
    ensures forall k :: 0 <= k < |outbox| ==> SentEdits(outbox)[k] == Edit(outbox[k].opId, outbox[k].op.value)
  {
    if outbox != [] {
      SentAll(outbox[..|outbox| - 1]);
    }
  }

  /** The place in the outbox that the operation typed at event n takes. */
  function PlaceOf(slot: Slot, n: nat): nat
    requires n <= |slot.events|
  {
    |Then(slot, n).outbox| + |Then(slot, n).queue|
  }

  lemma AllSent(d: Doc, slot: Slot)
    requires HistoryInv(d, slot)
    ensures |SentEdits(slot.client.outbox)| == |slot.client.outbox|
    ensures forall k :: 0 <= k < |slot.client.outbox| ==>
              var m := slot.client.outbox[k];
              m.SubmitOp? && m.op.Some? && SentEdits(slot.client.outbox)[k] == Edit(m.opId, m.op.value)
  {
    forall k | 0 <= k < |slot.client.outbox| ensures slot.client.outbox[k].SubmitOp? && slot.client.outbox[k].op.Some? {
      assert SentInTurn(d, slot, k);
    }
    SentAll(slot.client.outbox);
  }

  /** All of the past outbox was operations too. */
  lemma AllSentThen(d: Doc, slot: Slot, n: nat)
    requires HistoryInv(d, slot) && slot.client == Run(NewClient(slot.requested), slot.events) && n <= |slot.events|
    ensures |SentEdits(Then(slot, n).outbox)| == |Then(slot, n).outbox|
  {
    var c := Then(slot, n);
    assert slot.events[..|slot.events|] == slot.events;
    ThenGrows(slot, n, |slot.events|);
    forall k | 0 <= k < |c.outbox| ensures c.outbox[k].SubmitOp? && c.outbox[k].op.Some? {
      assert c.outbox[k] == slot.client.outbox[k] && SentInTurn(d, slot, k);
    }
    SentAll(c.outbox);
  }

  /** The edit typed at event n is number PlaceOf of all that are typed. */
  lemma TypedAtPlace(slot: Slot, n: nat)
    requires n < |slot.events| && slot.events[n].Typed? && |SentEdits(Then(slot, n).outbox)| == |Then(slot, n).outbox|
    ensures var typed := TypedEdits(NewClient(slot.requested), slot.events);
            PlaceOf(slot, n) < |typed| && typed[PlaceOf(slot, n)].op == slot.events[n].op
  {
    QueueConservation(slot.requested, slot.events[..n]);
    LastTyped(slot, n);
    assert slot.events[..|slot.events|] == slot.events;
    ThenGrows(slot, n + 1, |slot.events|);
  }

  lemma LastTyped(slot: Slot, n: nat)
    requires n < |slot.events| && slot.events[n].Typed?
    ensures var earlier := TypedEdits(NewClient(slot.requested), slot.events[..n]);
            var typed := TypedEdits(NewClient(slot.requested), slot.events[..n + 1]);
            |typed| == |earlier| + 1 && typed[|earlier|].op == slot.events[n].op
  {
    assert slot.events[..n + 1][..n] == slot.events[..n];
  }

  /** Operations are sent as they were typed, in the order typed. */
  lemma SentAsTyped(d: Doc, slot: Slot, n: nat)
    requires HistoryInv(d, slot) && slot.client == Run(NewClient(slot.requested), slot.events)
    requires n < |slot.events| && slot.events[n].Typed? && PlaceOf(slot, n) < |slot.client.outbox|
    ensures var m := slot.client.outbox[PlaceOf(slot, n)]; m.SubmitOp? && m.op == Some(slot.events[n].op)
  {
    AllSent(d, slot);
    AllSentThen(d, slot, n);
    TypedAtPlace(slot, n);
    QueueConservation(slot.requested, slot.events);
    assert Backlog(slot.client)[PlaceOf(slot, n)] == SentEdits(slot.client.outbox)[PlaceOf(slot, n)];
  }

  lemma SeenSent(d: Doc, slot: Slot, n: nat)
    requires HistoryInv(d, slot) && slot.client == Run(NewClient(slot.requested), slot.events)
    requires n < |slot.events| && slot.events[n].Typed?
    ensures var c, after, op := Then(slot, n), Then(slot, n + 1), slot.events[n].op;
            && |c.outbox| <= |after.outbox| <= |slot.client.outbox|
            && (|c.outbox| < |after.outbox| <==> c.inflight == None)
            && (c.inflight == None ==>
                  && Shows(d, c) && PlaceOf(slot, n) == |c.outbox|
                  && slot.client.outbox[|c.outbox|]
                     == SubmitOp(c.clientId, OpId(c.clientId, c.nextOpNumber), c.version, Some(op)))
  {
    var c := Then(slot, n);
    assert Settled(d, slot, c);
    assert slot.events[..n + 1][..n] == slot.events[..n] && slot.events[..|slot.events|] == slot.events;
    assert Then(slot, n + 1) == QueueOperation(c, slot.events[n].op);
    ThenGrows(slot, n + 1, |slot.events|);
  }

  /** What is on the screen is what is meant, on every polite run: an operation is sent in the event that
      typed it exactly when none was in flight, and then it is sent as typed, bound to the version on the
      screen. */
  lemma SentOnTheScreen(initial: string, limit: nat, steps: seq<Step>, k: nat, n: nat)
    requires PoliteRun(Start(initial, limit), steps)
    ensures IsRun(Start(initial, limit), steps)
    ensures var s := After(Start(initial, limit), steps);
            k < |s.slots| && n < |s.slots[k].events| && s.slots[k].events[n].Typed? ==>
              var slot := s.slots[k];
              var c, after, op := Then(slot, n), Then(slot, n + 1), slot.events[n].op;
              && |c.outbox| <= |after.outbox| <= |slot.client.outbox|
              && (|c.outbox| < |after.outbox| <==> c.inflight == None)
              && (c.inflight == None ==>
                    && 0 <= c.version <= Version(s.doc) && c.content == TextOf(s.doc, c.version)
                    && slot.client.outbox[|c.outbox|]
                       == SubmitOp(c.clientId, OpId(c.clientId, c.nextOpNumber), c.version, Some(op)))
  {
    Traced(initial, limit, steps);
    var s := After(Start(initial, limit), steps);
    if k < |s.slots| && n < |s.slots[k].events| && s.slots[k].events[n].Typed? {
      SeenSent(s.doc, s.slots[k], n);
    }
  }

  /** The operation connection i typed at its event n, with nothing in flight, is the next to be served. */
  ghost predicate NextIsSeen(s: System, i: nat, n: nat) {
    && i < |s.slots| && CanServe(s.slots[i]) && Polite(s, Serve(i))
    && n < |s.slots[i].events| && s.slots[i].events[n].Typed?
    && Then(s.slots[i], n).inflight == None && s.slots[i].served == |Then(s.slots[i], n).outbox|
  }

  lemma ServesSeen(s: System, i: nat, n: nat)
    requires TracedInv(s) && NextIsSeen(s, i, n)
    ensures var slot := s.slots[i];
            var c, op := Then(slot, n), slot.events[n].op;
            && Shows(s.doc, c) && Accepts(s.doc, c.version)
            && ServeSlot(s, i).doc == Next(s.doc, slot.id, OpId(c.clientId, c.nextOpNumber), c.version, op)
  {
    SeenSent(s.doc, s.slots[i], n);
  }

  /** The intention theorem for what users see: on every polite run, serving a delete that was typed with
      nothing in flight removes exactly the character its user had on the screen at that position, whatever
      was served in between; and nothing, iff that character is gone already. */
  lemma SeenDeleteServed(initial: string, limit: nat, steps: seq<Step>, i: nat, n: nat)
    requires PoliteRun(Start(initial, limit), steps)
    ensures IsRun(Start(initial, limit), steps)
    ensures var s := After(Start(initial, limit), steps);
            NextIsSeen(s, i, n) ==>
              var d, d', c, op := s.doc, ServeSlot(s, i).doc, Then(s.slots[i], n), s.slots[i].events[n].op;
              op.kind == Delete && op.pos < |c.content| ==>
                && 0 <= c.version <= Version(d) && c.content == TextOf(d, c.version)
                && |Ids(d, c.version)| == |c.content| && Version(d') == Version(d) + 1
                && Ids(d', Version(d')) == Without(Ids(d, Version(d)), Ids(d, c.version)[op.pos])
  {
    Traced(initial, limit, steps);
    var s := After(Start(initial, limit), steps);
    if NextIsSeen(s, i, n) {
      var c, op := Then(s.slots[i], n), s.slots[i].events[n].op;
      ServesSeen(s, i, n);
      if op.kind == Delete && op.pos < |c.content| {
        ProcessedDelete(s.doc, s.slots[i].id, OpId(c.clientId, c.nextOpNumber), c.version, op);
      }
    }
  }

  /** Serving an insert that was typed with nothing in flight puts its character between the surviving
      characters of the two sides of the gap its user had on the screen. */
  lemma SeenInsertServed(initial: string, limit: nat, steps: seq<Step>, i: nat, n: nat)
    requires PoliteRun(Start(initial, limit), steps)
    ensures IsRun(Start(initial, limit), steps)
    ensures var s := After(Start(initial, limit), steps);
            NextIsSeen(s, i, n) ==>
              var d, d', c, op := s.doc, ServeSlot(s, i).doc, Then(s.slots[i], n), s.slots[i].events[n].op;
              op.kind == Insert && |op.ch| == 1 && op.pos <= |c.content| ==>
                && 0 <= c.version <= Version(d) && c.content == TextOf(d, c.version)
                && Version(d') == Version(d) + 1
                && var p := d'.log[Version(d)].op.pos;
                   && p < |Text(d')| && Text(d')[p] == op.ch[0]
                   && p < |Ids(d', Version(d'))| && Ids(d', Version(d'))[p] == CharId.Typed(Version(d'))
                   && SameCut(Ids(d, c.version), op.pos, Ids(d', Version(d')), p)
  {
    Traced(initial, limit, steps);
    var s := After(Start(initial, limit), steps);
    if NextIsSeen(s, i, n) {
      var c, op := Then(s.slots[i], n), s.slots[i].events[n].op;
      ServesSeen(s, i, n);
      if op.kind == Insert && |op.ch| == 1 && op.pos <= |c.content| {
        ProcessedInsert(s.doc, s.slots[i].id, OpId(c.clientId, c.nextOpNumber), c.version, op);
      }
    }
  }

  // ----- Edits that had to wait -----

  /** A later version has no fewer operations of the connection. */
  lemma EntriesMonotone(d: Doc, slot: Slot, u: int, w: int)
    requires slot.joinedAt <= u <= w <= Version(d)
    ensures Entries(d, slot, w) == Entries(d, slot, u) + |Own(d.log, slot.id, u, w)|
  {
    OwnSplits(d.log, slot.id, slot.joinedAt, u, w);
  }

  lemma SentWhenOthersLogged(d: Doc, slot: Slot, n: nat)
    requires HistoryInv(d, slot) && slot.client == Run(NewClient(slot.requested), slot.events)
    requires n < |slot.events| && slot.events[n].Typed? && PlaceOf(slot, n) < |slot.client.outbox|
    ensures var c, m := Then(slot, n), slot.client.outbox[PlaceOf(slot, n)];
            && Shows(d, c) && m.SubmitOp? && m.op == Some(slot.events[n].op)
            && c.version <= m.baseVersion <= Version(d)
            && |Own(d.log, slot.id, c.version, m.baseVersion)| == |PendingOps(c)|
  {
    var c, m := Then(slot, n), slot.client.outbox[PlaceOf(slot, n)];
    SentAsTyped(d, slot, n);
    assert Settled(d, slot, c) && SentInTurn(d, slot, PlaceOf(slot, n));
    SeenSent(d, slot, n);
    if m.baseVersion < c.version {
      EntriesMonotone(d, slot, m.baseVersion, c.version);
      assert false;
    }
    EntriesMonotone(d, slot, c.version, m.baseVersion);
  }

  /** The operation connection k typed at its event n has been sent. */
  predicate Sent(s: System, k: nat, n: nat) {
    && k < |s.slots| && n < |s.slots[k].events| && s.slots[k].events[n].Typed?
    && PlaceOf(s.slots[k], n) < |s.slots[k].client.outbox|
  }

  /** Whatever was pending when an operation was typed, on every polite run: it is sent as it was typed,
      bound to a version that is no earlier than the one on the screen, and between the two the log has
      exactly the operations that were pending. */
  lemma SentBehindPending(initial: string, limit: nat, steps: seq<Step>, k: nat, n: nat)
    requires PoliteRun(Start(initial, limit), steps)
    ensures IsRun(Start(initial, limit), steps)
    ensures var s := After(Start(initial, limit), steps);
            Sent(s, k, n) ==>
              var d, slot := s.doc, s.slots[k];
              var c, m := Then(slot, n), slot.client.outbox[PlaceOf(slot, n)];
              && 0 <= c.version <= Version(d) && c.content == TextOf(d, c.version)
              && m.SubmitOp? && m.op == Some(slot.events[n].op) && c.version <= m.baseVersion <= Version(d)
              && |Own(d.log, slot.id, c.version, m.baseVersion)| == |PendingOps(c)|
  {
    Traced(initial, limit, steps);
    var s := After(Start(initial, limit), steps);
    if Sent(s, k, n) {
      SentWhenOthersLogged(s.doc, s.slots[k], n);
    }
  }
}
