/** The inductive invariant of good runs: every client is exactly its pending messages away from the
    server, and the fate of every operation in flight is known. */
module Convergence {
  import opened Operations
  import opened Messages
  import opened Documents
  import opened Clients
  import opened ClientRuns
  import opened Systems

  // ----- The downlink leads from the client's version to the server's -----

  predicate IsReply(m: ServerMessage) {
    m.Ack? || m.ResyncRequired? || m.Error?
  }

  /** Operations and replies that carry log entry v of d. */
  predicate Carries(d: Doc, m: ServerMessage, v: int) {
    (m.Ack? || m.RemoteOp?) && m.version == v && 1 <= v <= Version(d) && m.op == Some(d.log[v - 1].op)
  }

  /** Taken in order from version `from` (None before the first snapshot), the messages carry each later
      log entry exactly once, snapshots are of the version then reached, and the end is d's version. */
  predicate Leads(d: Doc, from: Option<int>, down: seq<ServerMessage>)
    decreases down
  {
    if down == [] then from == Some(Version(d))
    else
      var m, rest := down[0], down[1..];
      if m.DocState? then
        && 0 <= m.version <= Version(d) && m.content == Some(TextOf(d, m.version)) && m.historyStartVersion >= 0
        && (from.Some? ==> from.value == m.version)
        && Leads(d, Some(m.version), rest)
      else if m.Ack? || m.RemoteOp? then
        from.Some? && from.value >= 0 && Carries(d, m, from.value + 1) && Leads(d, Some(from.value + 1), rest)
      else Leads(d, from, rest)
  }

  function Position(slot: Slot): Option<int> {
    if slot.synced then Some(slot.client.version) else None
  }

  /** `e` was logged last, as d' 's newest entry. */
  predicate Grown(d: Doc, d': Doc) {
    d'.initial == d.initial && |d'.log| == |d.log| + 1 && d.log <= d'.log
  }

  lemma GrownTexts(d: Doc, d': Doc, v: nat)
    requires Grown(d, d') && v <= Version(d)
    ensures TextOf(d', v) == TextOf(d, v)
  {
    assert Ops(d.log) <= Ops(d'.log);
    TextAtPrefix(d.initial, Ops(d.log), Ops(d'.log), v);
  }

  lemma {:induction false} LeadsToNewEntry(d: Doc, d': Doc, from: Option<int>, down: seq<ServerMessage>,
                                           m: ServerMessage)
    requires Grown(d, d') && Leads(d, from, down) && Carries(d', m, Version(d'))
    ensures Leads(d', from, down + [m])
    decreases down
  {
    if down == [] {
      assert down + [m] == [m];
    } else {
      var head, rest := down[0], down[1..];
      assert (down + [m])[0] == head && (down + [m])[1..] == rest + [m];
      if head.DocState? {
        GrownTexts(d, d', head.version);
        LeadsToNewEntry(d, d', Some(head.version), rest, m);
      } else if head.Ack? || head.RemoteOp? {
        LeadsToNewEntry(d, d', Some(from.value + 1), rest, m);
      } else {
        LeadsToNewEntry(d, d', from, rest, m);
      }
    }
  }

  /** Adding the current snapshot, or a message without effect on the text, leads to the same place. */
  lemma {:induction false} LeadsToSame(d: Doc, from: Option<int>, down: seq<ServerMessage>, m: ServerMessage)
    requires Leads(d, from, down)
    requires m == StateMessage(d) || m.Welcome? || m.ResyncRequired? || m.Error?
    ensures Leads(d, from, down + [m])
    decreases down
  {
    if down == [] {
      assert down + [m] == [m];
    } else {
      var head, rest := down[0], down[1..];
      assert (down + [m])[0] == head && (down + [m])[1..] == rest + [m];
      LeadsToSame(d, if head.DocState? then Some(head.version)
                     else if head.Ack? || head.RemoteOp? then Some(from.value + 1) else from, rest, m);
    }
  }

  // ----- Every version once -----

  function VersionsIn(down: seq<ServerMessage>): seq<int> {
    if down == [] then []
    else if down[0].Ack? || down[0].RemoteOp? then [down[0].version] + VersionsIn(down[1..])
    else VersionsIn(down[1..])
  }

  function Span(from: nat, to: nat): seq<int>
    requires from <= to
  {
    seq(to - from, i requires 0 <= i < to - from => from + 1 + i)
  }

  lemma {:induction false} VersionsInAppend(a: seq<ServerMessage>, b: seq<ServerMessage>)
    ensures VersionsIn(a + b) == VersionsIn(a) + VersionsIn(b)
  {
    if a == [] {
      assert a + b == b;
    } else {
      VersionsInAppend(a[1..], b);
      assert (a + b)[0] == a[0] && (a + b)[1..] == a[1..] + b;
    }
  }

  /** What the client has received and what is still on its way are the versions since it joined, in
      order and each exactly once, as ACK or REMOTE_OP. */
  predicate EachVersionOnce(d: Doc, slot: Slot) {
    slot.joinedAt <= Version(d) && slot.received + VersionsIn(slot.down) == Span(slot.joinedAt, Version(d))
  }

  // ----- The operation in flight -----

  function Replies(down: seq<ServerMessage>): seq<ServerMessage> {
    if down == [] then []
    else if IsReply(down[0]) then [down[0]] + Replies(down[1..])
    else Replies(down[1..])
  }

  lemma PrependAppend<A>(x: A, a: seq<A>, b: seq<A>)
    ensures [x] + (a + b) == [x] + a + b
  {
  }

  lemma {:induction false} RepliesAppend(a: seq<ServerMessage>, b: seq<ServerMessage>)
    ensures Replies(a + b) == Replies(a) + Replies(b)
  {
    if a == [] {
      assert a + b == b;
    } else {
      RepliesAppend(a[1..], b);
      PrependAppend(a[0], Replies(a[1..]), Replies(b));
      assert (a + b)[0] == a[0] && (a + b)[1..] == a[1..] + b;
    }
  }

  lemma {:induction false} ReplyListed(down: seq<ServerMessage>, k: nat)
    requires k < |down| && IsReply(down[k])
    ensures Replies(down) != [] && down[k] in Replies(down)
  {
    if k > 0 {
      ReplyListed(down[1..], k - 1);
    }
  }

  /** The reply to `p`, when there is one on the way: a refusal only for an unacceptable operation. */
  predicate AnswersOnly(replies: seq<ServerMessage>, p: Pending) {
    && |replies| <= 1
    && (Acceptable(p.op) ==> |replies| == 1)
    && forall k :: 0 <= k < |replies| ==>
                     IsReply(replies[k]) && replies[k].opId == p.opId && (replies[k].Error? ==> !Acceptable(p.op))
  }

  /** Unserved messages are document requests, but for the last when it is the operation in flight; and
      a reply is on its way exactly for an operation that was served. */
  predicate FateKnown(c: Client, served: nat, down: seq<ServerMessage>) {
    && served <= |c.outbox|
    && match c.inflight
       case None =>
         && (forall k :: served <= k < |c.outbox| ==> c.outbox[k] == RequestDoc)
         && Replies(down) == []
       case Some(p) =>
         && c.outbox != []
         && c.outbox[|c.outbox| - 1].SubmitOp?
         && c.outbox[|c.outbox| - 1].opId == p.opId && c.outbox[|c.outbox| - 1].op == Some(p.op)
         && (forall k :: served <= k < |c.outbox| - 1 ==> c.outbox[k] == RequestDoc)
         && (if served == |c.outbox| then AnswersOnly(Replies(down), p) else Replies(down) == [])
  }

  /** A client that waits without an operation in flight has a snapshot coming that will set it off. */
  predicate WillBePumped(c: Client, down: seq<ServerMessage>) {
    c.inflight == None && c.queue != [] ==> exists k :: 0 <= k < |down| && down[k].DocState?
  }

  predicate Placed(down: seq<ServerMessage>) {
    && (forall k :: 0 <= k < |down| && down[k].ResyncRequired? ==> k + 1 < |down| && down[k + 1].DocState?)
    && (forall j, k :: 0 <= j < k < |down| && down[j].Ack? ==> !down[k].DocState?)
  }

  ghost predicate SlotInv(d: Doc, slot: Slot) {
    && (slot.synced ==> Shows(d, slot.client))
    && Leads(d, Position(slot), slot.down)
    && EachVersionOnce(d, slot)
    && FateKnown(slot.client, slot.served, slot.down)
    && WillBePumped(slot.client, slot.down)
    && Placed(slot.down)
    && slot.client == Run(NewClient(slot.requested), slot.events)
  }

  ghost predicate DistinctIds(slots: seq<Slot>) {
    forall j, k :: 0 <= j < k < |slots| ==> slots[j].id != slots[k].id
  }

  ghost predicate Inv(s: System) {
    && ValidDoc(s.doc)
    && DistinctIds(s.slots)
    && forall k :: 0 <= k < |s.slots| ==> SlotInv(s.doc, s.slots[k])
  }

  // ----- Messages pushed by the server -----

  lemma RunOneMore(requested: string, events: seq<Event>, e: Event)
    ensures Run(NewClient(requested), events + [e]) == React(Run(NewClient(requested), events), e)
  {
    assert (events + [e])[..|events|] == events;
  }

  lemma PlacedAppend(down: seq<ServerMessage>, m: ServerMessage)
    requires Placed(down) && !m.ResyncRequired?
    requires m.DocState? ==> forall k :: 0 <= k < |down| ==> !down[k].Ack?
    ensures Placed(down + [m])
  {
  }

  /** A connection hears of somebody else's operation. */
  lemma PushRemote(d: Doc, d': Doc, slot: Slot, m: ServerMessage)
    requires SlotInv(d, slot) && Grown(d, d') && m.RemoteOp? && Carries(d', m, Version(d'))
    ensures SlotInv(d', Push(slot, [m]))
  {
    LeadsToNewEntry(d, d', Position(slot), slot.down, m);
    VersionsInAppend(slot.down, [m]);
    RepliesAppend(slot.down, [m]);
    PlacedAppend(slot.down, m);
    if slot.synced {
      GrownTexts(d, d', slot.client.version);
    }
    KeepsPumped(slot.client, slot.down, m);
    assert Span(slot.joinedAt, Version(d')) == Span(slot.joinedAt, Version(d)) + [Version(d')];
  }

  lemma KeepsPumped(c: Client, down: seq<ServerMessage>, m: ServerMessage)
    requires WillBePumped(c, down)
    ensures WillBePumped(c, down + [m])
  {
    if c.inflight == None && c.queue != [] {
      var k :| 0 <= k < |down| && down[k].DocState?;
      assert (down + [m])[k] == down[k];
    }
  }

  /** The submitter hears of its own operation. */
  lemma PushAck(d: Doc, d': Doc, slot: Slot, m: ServerMessage)
    requires SlotInv(d, slot) && CanServe(slot) && slot.client.outbox[slot.served].SubmitOp?
    requires Grown(d, d') && m.Ack? && Carries(d', m, Version(d')) && m.opId == slot.client.outbox[slot.served].opId
    ensures SlotInv(d', Push(Served(slot), [m]))
  {
    LeadsToNewEntry(d, d', Position(slot), slot.down, m);
    VersionsInAppend(slot.down, [m]);
    RepliesAppend(slot.down, [m]);
    PlacedAppend(slot.down, m);
    if slot.synced {
      GrownTexts(d, d', slot.client.version);
    }
    KeepsPumped(slot.client, slot.down, m);
    assert Span(slot.joinedAt, Version(d')) == Span(slot.joinedAt, Version(d)) + [Version(d')];
    assert Replies([m]) == [m];
  }

  lemma NoAckWhileUnserved(slot: Slot, k: nat)
    requires FateKnown(slot.client, slot.served, slot.down) && CanServe(slot) && k < |slot.down|
    ensures !IsReply(slot.down[k])
  {
    if IsReply(slot.down[k]) {
      ReplyListed(slot.down, k);
    }
  }

  lemma StateAppended(down: seq<ServerMessage>, m: ServerMessage)
    requires m.DocState?
    ensures VersionsIn(down + [m]) == VersionsIn(down) && Replies(down + [m]) == Replies(down)
  {
    assert [m][1..] == [] && VersionsIn([m]) == [] && Replies([m]) == [];
    VersionsInAppend(down, [m]);
    RepliesAppend(down, [m]);
  }

  /** The answer to a document request. */
  lemma PushState(d: Doc, slot: Slot)
    requires ValidDoc(d) && SlotInv(d, slot) && CanServe(slot) && slot.client.outbox[slot.served] == RequestDoc
    ensures SlotInv(d, Push(Served(slot), [StateMessage(d)]))
  {
    var m := StateMessage(d);
    LeadsToSame(d, Position(slot), slot.down, m);
    StateAppended(slot.down, m);
    forall k | 0 <= k < |slot.down| ensures !slot.down[k].Ack? {
      NoAckWhileUnserved(slot, k);
    }
    PlacedAppend(slot.down, m);
    KeepsPumped(slot.client, slot.down, m);
  }

  /** The answer to an operation the document refuses. */
  lemma PushError(d: Doc, slot: Slot, m: ServerMessage)
    requires SlotInv(d, slot) && CanServe(slot)
    requires slot.client.outbox[slot.served].SubmitOp? && slot.client.outbox[slot.served].op.Some?
    requires m.Error? && m.opId == slot.client.outbox[slot.served].opId
    requires !Acceptable(slot.client.outbox[slot.served].op.value)
    ensures SlotInv(d, Push(Served(slot), [m]))
  {
    LeadsToSame(d, Position(slot), slot.down, m);
    VersionsInAppend(slot.down, [m]);
    RepliesAppend(slot.down, [m]);
    PlacedAppend(slot.down, m);
    KeepsPumped(slot.client, slot.down, m);
    assert Replies([m]) == [m];
  }

  lemma ResyncPair(m: ServerMessage, state: ServerMessage)
    requires m.ResyncRequired? && state.DocState?
    ensures VersionsIn([m, state]) == [] && Replies([m, state]) == [m]
  {
    assert [m, state][1..] == [state] && [state][1..] == [];
    assert VersionsIn([state]) == [] && Replies([state]) == [];
  }

  lemma ResyncPlaced(down: seq<ServerMessage>, m: ServerMessage, state: ServerMessage)
    requires m.ResyncRequired? && state.DocState?
    requires Placed(down) && forall k :: 0 <= k < |down| ==> !IsReply(down[k])
    ensures Placed(down + [m, state])
  {
  }

  lemma TwoAppended(down: seq<ServerMessage>, m: ServerMessage, state: ServerMessage)
    requires m.ResyncRequired? && state.DocState?
    ensures VersionsIn(down + [m, state]) == VersionsIn(down)
    ensures Replies(down + [m, state]) == Replies(down) + [m]
  {
    ResyncPair(m, state);
    VersionsInAppend(down, [m, state]);
    RepliesAppend(down, [m, state]);
  }

  /** The two messages of a resynchronisation. */
  lemma PushResync(d: Doc, slot: Slot, m: ServerMessage)
    requires ValidDoc(d) && SlotInv(d, slot) && CanServe(slot) && slot.client.outbox[slot.served].SubmitOp?
    requires m.ResyncRequired? && m.opId == slot.client.outbox[slot.served].opId
    ensures SlotInv(d, Push(Served(slot), [m, StateMessage(d)]))
  {
    var state := StateMessage(d);
    forall k | 0 <= k < |slot.down| ensures !IsReply(slot.down[k]) {
      NoAckWhileUnserved(slot, k);
    }
    ResyncPlaced(slot.down, m, state);
    TwoAppended(slot.down, m, state);
    LeadsToSame(d, Position(slot), slot.down, m);
    LeadsToSame(d, Position(slot), slot.down + [m], state);
    KeepsPumped(slot.client, slot.down, m);
    KeepsPumped(slot.client, slot.down + [m], state);
    assert slot.down + [m, state] == (slot.down + [m]) + [state];
  }

  // ----- Steps of the client -----

  /** A client with nothing in flight that pumps: what it sends, if anything, is last in its outbox. */
  lemma PumpFate(c: Client, served: nat, down: seq<ServerMessage>)
    requires c.inflight == None && FateKnown(c, served, down)
    ensures FateKnown(Pump(c), served, down) && WillBePumped(Pump(c), down)
  {
  }

  /** Taking a message off the front keeps the order of the rest. */
  lemma RestPlaced(down: seq<ServerMessage>)
    requires down != [] && Placed(down)
    ensures Placed(down[1..])
  {
    var rest := down[1..];
    assert forall k :: 0 <= k < |rest| ==> rest[k] == down[k + 1];
  }

  lemma RestPumped(c: Client, down: seq<ServerMessage>)
    requires down != [] && !down[0].DocState? && WillBePumped(c, down)
    ensures WillBePumped(c, down[1..])
  {
    if c.inflight == None && c.queue != [] {
      var k :| 0 <= k < |down| && down[k].DocState?;
      assert down[1..][k - 1] == down[k];
    }
  }

  lemma DeliveredOnce(d: Doc, slot: Slot)
    requires slot.down != [] && EachVersionOnce(d, slot)
    ensures EachVersionOnce(d, DeliverTo(slot))
  {
    var m := slot.down[0];
    if m.Ack? || m.RemoteOp? {
      assert slot.received + VersionsIn(slot.down) == (slot.received + [m.version]) + VersionsIn(slot.down[1..]);
    }
  }

  lemma DeliverState(d: Doc, slot: Slot)
    requires SlotInv(d, slot) && CanDeliver(slot) && slot.down[0].DocState? && slot.client.inflight == None
    ensures SlotInv(d, DeliverTo(slot))
  {
    var c, m, rest := slot.client, slot.down[0], slot.down[1..];
    var reset := c.(content := m.content.value, version := m.version,
                    historyStartVersion := m.historyStartVersion, inflight := None);
    PumpFate(reset, slot.served, rest);
    assert DeliverTo(slot).client == Pump(reset);
    RestPlaced(slot.down);
    DeliveredOnce(d, slot);
    RunOneMore(slot.requested, slot.events, Received(m));
  }

  /** In a good run no ACK is stale: it answers the operation in flight, and comes in turn. */
  lemma AckInTurn(d: Doc, slot: Slot)
    requires SlotInv(d, slot) && CanDeliver(slot) && slot.down[0].Ack?
    ensures slot.synced && MatchingAck(slot.client, slot.down[0])
    ensures slot.down[0].version == slot.client.version + 1
    ensures slot.served == |slot.client.outbox| && Replies(slot.down[1..]) == []
  {
    assert Replies(slot.down)[0] == slot.down[0] && Replies(slot.down)[1..] == Replies(slot.down[1..]);
  }

  lemma AppliesNextEntry(d: Doc, c: Client, m: ServerMessage)
    requires Shows(d, c) && Carries(d, m, c.version + 1)
    ensures ApplyOp(c.content, m.op.value) == TextOf(d, m.version)
  {
  }

  lemma DeliverAck(d: Doc, slot: Slot)
    requires SlotInv(d, slot) && CanDeliver(slot) && slot.down[0].Ack?
    ensures SlotInv(d, DeliverTo(slot))
  {
    var c, m, rest := slot.client, slot.down[0], slot.down[1..];
    AckInTurn(d, slot);
    AppliesNextEntry(d, c, m);
    var applied := ApplyAuthoritative(c, m.op, m.version).(inflight := None);
    PumpFate(applied, slot.served, rest);
    assert DeliverTo(slot).client == Pump(applied);
    RestPlaced(slot.down);
    DeliveredOnce(d, slot);
    RunOneMore(slot.requested, slot.events, Received(m));
  }

  /** In a good run no version gap is ever seen. */
  lemma RemoteInTurn(d: Doc, slot: Slot)
    requires SlotInv(d, slot) && CanDeliver(slot) && slot.down[0].RemoteOp?
    ensures slot.synced && slot.down[0].version == slot.client.version + 1
  {
  }

  lemma DeliverRemote(d: Doc, slot: Slot)
    requires SlotInv(d, slot) && CanDeliver(slot) && slot.down[0].RemoteOp?
    ensures SlotInv(d, DeliverTo(slot))
  {
    var c, m := slot.client, slot.down[0];
    RemoteInTurn(d, slot);
    AppliesNextEntry(d, c, m);
    RestPlaced(slot.down);
    RestPumped(c, slot.down);
    DeliveredOnce(d, slot);
    RunOneMore(slot.requested, slot.events, Received(m));
  }

  lemma DeliverResync(d: Doc, slot: Slot)
    requires SlotInv(d, slot) && CanDeliver(slot) && slot.down[0].ResyncRequired?
    ensures SlotInv(d, DeliverTo(slot))
  {
    var c, m, rest := slot.client, slot.down[0], slot.down[1..];
    assert Replies(slot.down) == [m] + Replies(rest);
    assert rest[0] == slot.down[1];
    RestPlaced(slot.down);
    DeliveredOnce(d, slot);
    RunOneMore(slot.requested, slot.events, Received(m));
  }

  lemma DeliverWelcome(d: Doc, slot: Slot)
    requires SlotInv(d, slot) && CanDeliver(slot) && slot.down[0].Welcome?
    ensures SlotInv(d, DeliverTo(slot))
  {
    assert Replies(slot.down) == Replies(slot.down[1..]);
    RestPlaced(slot.down);
    RestPumped(slot.client, slot.down);
    DeliveredOnce(d, slot);
    RunOneMore(slot.requested, slot.events, Received(slot.down[0]));
  }

  lemma DeliverError(d: Doc, slot: Slot)
    requires SlotInv(d, slot) && CanDeliver(slot) && slot.down[0].Error?
    ensures SlotInv(d, DeliverTo(slot))
  {
    assert Replies(slot.down)[0] == slot.down[0] && Replies(slot.down)[1..] == Replies(slot.down[1..]);
    RestPlaced(slot.down);
    RestPumped(slot.client, slot.down);
    DeliveredOnce(d, slot);
    RunOneMore(slot.requested, slot.events, Received(slot.down[0]));
  }

  lemma DeliverKeeps(d: Doc, slot: Slot)
    requires SlotInv(d, slot) && CanDeliver(slot)
    requires !(slot.down[0].DocState? && slot.client.inflight.Some?)
    ensures SlotInv(d, DeliverTo(slot))
  {
    match slot.down[0]
    case DocState(_, _, _) => DeliverState(d, slot);
    case Ack(_, _, _, _, _, _, _) => DeliverAck(d, slot);
    case RemoteOp(_, _, _, _, _) => DeliverRemote(d, slot);
    case ResyncRequired(_, _, _, _) => DeliverResync(d, slot);
    case Welcome(_) => DeliverWelcome(d, slot);
    case Error(_, _) => DeliverError(d, slot);
  }

  lemma TypeFate(c: Client, served: nat, down: seq<ServerMessage>, op: Operation)
    requires FateKnown(c, served, down) && WillBePumped(c, down)
    ensures FateKnown(QueueOperation(c, op), served, down) && WillBePumped(QueueOperation(c, op), down)
  {
    var longer := c.(nextOpNumber := c.nextOpNumber + 1,
                     queue := c.queue + [Pending(OpId(c.clientId, c.nextOpNumber), op, -1)]);
    if c.inflight == None {
      PumpFate(longer, served, down);
    }
  }

  lemma TypeKeeps(d: Doc, slot: Slot, op: Operation)
    requires SlotInv(d, slot)
    ensures SlotInv(d, TypeInto(slot, op))
  {
    TypeFate(slot.client, slot.served, slot.down, op);
    RunOneMore(slot.requested, slot.events, Typed(op));
  }

  // ----- Steps of the server -----

  lemma JoinKeeps(s: System, requested: string)
    requires Inv(s)
    ensures Inv(Perform(s, Join(requested)))
  {
    var (id, next) := ChooseId(IdsOf(s.slots), requested, s.nextClientNumber);
    var slot := Newcomer(s.doc, id, requested);
    var rest := [StateMessage(s.doc)];
    assert slot.down[1..] == rest && rest[1..] == [];
    assert Leads(s.doc, Some(Version(s.doc)), rest[1..]);
    assert Leads(s.doc, None, rest);
    assert Leads(s.doc, None, slot.down);
    assert VersionsIn(slot.down) == VersionsIn(rest) == [];
    assert Replies(slot.down) == Replies(rest) == [];
    assert SlotInv(s.doc, slot);
    forall k | 0 <= k < |s.slots| ensures s.slots[k].id != id {
      assert s.slots[k].id in IdsOf(s.slots);
    }
  }

  lemma ReplaceSlot(s: System, i: nat, slot: Slot)
    requires Inv(s) && i < |s.slots| && SlotInv(s.doc, slot) && slot.id == s.slots[i].id
    ensures Inv(s.(slots := s.slots[i := slot]))
  {
  }

  /** Of the messages not yet served, only the last can be an operation: the one in flight. */
  lemma UnservedOperation(slot: Slot)
    requires FateKnown(slot.client, slot.served, slot.down) && CanServe(slot)
    requires slot.client.outbox[slot.served].SubmitOp?
    ensures slot.served == |slot.client.outbox| - 1 && slot.client.inflight.Some?
    ensures slot.client.outbox[slot.served].op == Some(slot.client.inflight.value.op)
  {
  }

  lemma ServeRequestKeeps(s: System, i: nat)
    requires Inv(s) && i < |s.slots| && CanServe(s.slots[i])
    requires s.slots[i].client.outbox[s.slots[i].served] == RequestDoc
    ensures Inv(ServeSlot(s, i))
  {
    PushState(s.doc, s.slots[i]);
    ReplaceSlot(s, i, Push(Served(s.slots[i]), [StateMessage(s.doc)]));
  }

  /** What the document answers to an operation. */
  ghost predicate Outcome(d: Doc, opId: string, op: Option<Operation>, doc: Doc, r: ProcessResult) {
    match r
    case Refused(error) => error.Error? && error.opId == opId && (op.Some? ==> !Acceptable(op.value))
    case Resync(required, state) => required.ResyncRequired? && required.opId == opId && state == StateMessage(d)
    case Processed(ack, remote, _, _) =>
      && ValidDoc(doc) && Grown(d, doc)
      && ack.Ack? && ack.opId == opId && Carries(doc, ack, Version(doc))
      && remote.RemoteOp? && Carries(doc, remote, Version(doc))
  }

  lemma ProcessOutcome(d: Doc, clientId: string, opId: string, base: int, op: Option<Operation>)
    requires ValidDoc(d)
    ensures var (doc, r) := Process(d, clientId, opId, base, op); Outcome(d, opId, op, doc, r)
  {
    ProcessKeepsValid(d, clientId, opId, base, op);
  }

  /** The connection whose operation in flight is now being served. */
  ghost predicate Serving(s: System, i: nat, opId: string, op: Option<Operation>) {
    && Inv(s) && i < |s.slots| && CanServe(s.slots[i])
    && var m := s.slots[i].client.outbox[s.slots[i].served];
       m.SubmitOp? && m.opId == opId && m.op == op
  }

  /** Sending to the submitter, then to everybody else, reaches each connection once. */
  lemma BroadcastKeeps(s: System, i: nat, opId: string, op: Option<Operation>, doc: Doc, r: ProcessResult)
    requires Serving(s, i, opId, op) && r.Processed? && Outcome(s.doc, opId, op, doc, r)
    ensures Inv(Answer(s, i, Served(s.slots[i]), doc, r))
  {
    var slot := s.slots[i];
    PushAck(s.doc, doc, slot, r.ack);
    var slots := Broadcast(s.slots[i := Push(Served(slot), [r.ack])], r.remote, slot.id);
    forall k | 0 <= k < |slots|
      ensures SlotInv(doc, slots[k]) && slots[k].id == s.slots[k].id
    {
      if k != i {
        PushRemote(s.doc, doc, s.slots[k], r.remote);
      }
    }
  }

  lemma RejectionKeeps(s: System, i: nat, opId: string, op: Option<Operation>, doc: Doc, r: ProcessResult)
    requires Serving(s, i, opId, op) && !r.Processed? && Outcome(s.doc, opId, op, doc, r)
    ensures Inv(Answer(s, i, Served(s.slots[i]), doc, r))
  {
    var slot := s.slots[i];
    UnservedOperation(slot);
    if r.Refused? {
      PushError(s.doc, slot, r.error);
      ReplaceSlot(s, i, Push(Served(slot), [r.error]));
    } else {
      PushResync(s.doc, slot, r.required);
      ReplaceSlot(s, i, Push(Served(slot), [r.required, r.state]));
    }
  }

  lemma AnswerKeeps(s: System, i: nat, opId: string, op: Option<Operation>, doc: Doc, r: ProcessResult)
    requires Serving(s, i, opId, op) && Outcome(s.doc, opId, op, doc, r)
    ensures Inv(Answer(s, i, Served(s.slots[i]), doc, r))
  {
    if r.Processed? {
      BroadcastKeeps(s, i, opId, op, doc, r);
    } else {
      RejectionKeeps(s, i, opId, op, doc, r);
    }
  }

  lemma ServeKeeps(s: System, i: nat)
    requires Inv(s) && i < |s.slots| && CanServe(s.slots[i])
    ensures Inv(ServeSlot(s, i))
  {
    var slot := s.slots[i];
    match slot.client.outbox[slot.served]
    case RequestDoc => ServeRequestKeeps(s, i);
    case SubmitOp(_, opId, base, op) =>
      ProcessOutcome(s.doc, slot.id, opId, base, op);
      var (doc, r) := Process(s.doc, slot.id, opId, base, op);
      AnswerKeeps(s, i, opId, op, doc, r);
  }

  lemma StepKeeps(s: System, step: Step)
    requires Inv(s) && Enabled(s, step) && !ForgetsInFlight(s, step)
    ensures Inv(Perform(s, step))
  {
    match step
    case Join(requested) => JoinKeeps(s, requested);
    case Leave(i) =>
    case TypeOp(i, op) =>
      TypeKeeps(s.doc, s.slots[i], op);
      ReplaceSlot(s, i, TypeInto(s.slots[i], op));
    case Serve(i) => ServeKeeps(s, i);
    case Deliver(i) =>
      DeliverKeeps(s.doc, s.slots[i]);
      ReplaceSlot(s, i, DeliverTo(s.slots[i]));
  }

  lemma {:induction false} GoodRunKeeps(s: System, steps: seq<Step>)
    requires Inv(s) && GoodRun(s, steps)
    ensures IsRun(s, steps) && Inv(After(s, steps))
    decreases steps
  {
    if steps != [] {
      StepKeeps(s, steps[0]);
      GoodRunKeeps(Perform(s, steps[0]), steps[1..]);
    }
  }

  lemma StartInv(initial: string, limit: nat)
    ensures Inv(Start(initial, limit))
  {
  }
}
