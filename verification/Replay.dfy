/** Replaying the messages still pending for a client through its own handlers: exactly when that reaches
    the server's text. */
module Replay {
  import opened Messages
  import opened Documents
  import opened Clients
  import opened ClientRuns
  import opened Systems
  import opened Convergence

  function Drain(c: Client, down: seq<ServerMessage>): Client
    decreases down
  {
    if down == [] then c else Drain(Handle(c, down[0]), down[1..])
  }

  /** A snapshot stands in front of the ACK of the operation in flight. */
  predicate Doomed(slot: Slot) {
    slot.client.inflight.Some? && exists j, k :: 0 <= j < k < |slot.down| && slot.down[j].DocState? && slot.down[k].Ack?
  }

  /** Each ACK answers the operation in flight, and nothing in front of it clears that operation. */
  predicate AcksFindTheirOperation(c: Client, down: seq<ServerMessage>) {
    forall k :: 0 <= k < |down| && down[k].Ack? ==>
                  && c.inflight.Some? && down[k].opId == c.inflight.value.opId
                  && forall j :: 0 <= j < k ==> !down[j].DocState? && !down[j].ResyncRequired? && !down[j].Ack?
  }

  lemma {:induction false} RepliesCounted(down: seq<ServerMessage>, j: nat, k: nat)
    requires j < k < |down| && IsReply(down[j]) && IsReply(down[k])
    ensures |Replies(down)| >= 2
  {
    if j == 0 {
      ReplyListed(down[1..], k - 1);
    } else {
      RepliesCounted(down[1..], j - 1, k - 1);
    }
  }

  lemma AckIsTheReply(slot: Slot, k: nat)
    requires FateKnown(slot.client, slot.served, slot.down) && k < |slot.down| && slot.down[k].Ack?
    ensures slot.client.inflight.Some? && slot.down[k].opId == slot.client.inflight.value.opId
    ensures forall j :: 0 <= j < |slot.down| && j != k ==> !IsReply(slot.down[j])
  {
    ReplyListed(slot.down, k);
    forall j | 0 <= j < |slot.down| && j != k
      ensures !IsReply(slot.down[j])
    {
      if IsReply(slot.down[j]) {
        RepliesCounted(slot.down, if j < k then j else k, if j < k then k else j);
      }
    }
  }

  lemma {:induction false} DrainReaches(d: Doc, c: Client, from: Option<int>, down: seq<ServerMessage>)
    requires Leads(d, from, down) && AcksFindTheirOperation(c, down)
    requires from.Some? ==> from.value == c.version && Shows(d, c)
    ensures Drain(c, down).version == Version(d) && Drain(c, down).content == Text(d)
    decreases down
  {
    if down != [] {
      var m, rest := down[0], down[1..];
      assert forall k :: 0 <= k < |rest| ==> rest[k] == down[k + 1];
      var from' := if m.DocState? then Some(m.version)
                   else if m.Ack? || m.RemoteOp? then Some(from.value + 1) else from;
      if m.Ack? || m.RemoteOp? {
        AppliesNextEntry(d, c, m);
      }
      DrainReaches(d, Handle(c, m), from', rest);
    }
  }

  // ----- The doomed case -----

  /** No operation this client holds answers to `opId`. */
  predicate Ignores(c: Client, opId: string) {
    && (c.inflight.Some? ==> c.inflight.value.opId != opId)
    && forall k :: 0 <= k < |c.queue| ==> c.queue[k].opId != opId
  }

  lemma HandleIgnores(c: Client, m: ServerMessage, opId: string)
    requires Ignores(c, opId)
    ensures Ignores(Handle(c, m), opId)
  {
  }

  /** Behind a missed version every later operation is a gap. */
  lemma {:induction false} StaysBehind(d: Doc, c: Client, from: int, down: seq<ServerMessage>)
    requires Leads(d, Some(from), down) && c.version < from
    requires forall k :: 0 <= k < |down| ==> !down[k].DocState? && !down[k].Ack?
    ensures Drain(c, down).version < Version(d)
    decreases down
  {
    if down != [] {
      var m, rest := down[0], down[1..];
      assert forall k :: 0 <= k < |rest| ==> rest[k] == down[k + 1];
      StaysBehind(d, Handle(c, m), if m.RemoteOp? then from + 1 else from, rest);
    }
  }

  lemma {:induction false} MissesTheAck(d: Doc, c: Client, down: seq<ServerMessage>, k: nat)
    requires Leads(d, Some(c.version), down) && Shows(d, c)
    requires k < |down| && down[k].Ack? && Ignores(c, down[k].opId)
    requires forall j :: 0 <= j < |down| && j != k ==> !IsReply(down[j])
    requires forall j :: k < j < |down| ==> !down[j].DocState?
    ensures Drain(c, down).version < Version(d)
    decreases down
  {
    var m, rest := down[0], down[1..];
    assert forall j :: 0 <= j < |rest| ==> rest[j] == down[j + 1];
    if k == 0 {
      assert Handle(c, m) == c;
      StaysBehind(d, c, c.version + 1, rest);
    } else {
      HandleIgnores(c, m, down[k].opId);
      if m.RemoteOp? {
        AppliesNextEntry(d, c, m);
      }
      MissesTheAck(d, Handle(c, m), rest, k - 1);
    }
  }

  lemma {:induction false} SnapshotForgets(d: Doc, c: Client, from: Option<int>, down: seq<ServerMessage>, j: nat,
                                           k: nat)
    requires Leads(d, from, down) && (from.Some? ==> from.value == c.version && Shows(d, c))
    requires j < k < |down| && down[j].DocState? && down[k].Ack?
    requires c.inflight.Some? && forall q :: 0 <= q < |c.queue| ==> c.queue[q].opId != down[k].opId
    requires forall i :: 0 <= i < |down| && i != k ==> !IsReply(down[i])
    requires forall i :: k < i < |down| ==> !down[i].DocState?
    ensures Drain(c, down).version < Version(d)
    decreases down
  {
    var m, rest := down[0], down[1..];
    assert forall i :: 0 <= i < |rest| ==> rest[i] == down[i + 1];
    if m.DocState? {
      MissesTheAck(d, Handle(c, m), rest, k - 1);
    } else {
      if m.RemoteOp? {
        AppliesNextEntry(d, c, m);
      }
      SnapshotForgets(d, Handle(c, m), if m.RemoteOp? then Some(from.value + 1) else from, rest, j - 1, k - 1);
    }
  }

  /** The operation in flight is not among those still queued. */
  lemma InFlightNotQueued(slot: Slot, q: nat)
    requires FateKnown(slot.client, slot.served, slot.down) && slot.client.inflight.Some?
    requires slot.client == Run(NewClient(slot.requested), slot.events) && q < |slot.client.queue|
    ensures slot.client.queue[q].opId != slot.client.inflight.value.opId
  {
    var c := slot.client;
    var sent := SentEdits(c.outbox);
    QueueConservation(slot.requested, slot.events);
    var typed := TypedEdits(NewClient(slot.requested), slot.events);
    assert sent[|sent| - 1].opId == c.inflight.value.opId;
    assert typed[|sent| - 1] == sent[|sent| - 1] && typed[|sent| + q] == WaitingEdits(c.queue)[q];
    OpIdsDistinct(slot.requested, slot.events, |sent| - 1, |sent| + q);
  }

  /** Convergence, exactly: in a state of a good run, replaying a client's pending downlink through its
      handlers ends at the server's text and version, unless a snapshot stands in front of the ACK of the
      operation in flight; then, and only then, it stops short of the server's version. */
  lemma DrainExact(d: Doc, slot: Slot)
    requires SlotInv(d, slot)
    ensures var end := Drain(slot.client, slot.down);
            if Doomed(slot) then end.version < Version(d)
            else end.version == Version(d) && end.content == Text(d)
  {
    if Doomed(slot) {
      var j, k :| 0 <= j < k < |slot.down| && slot.down[j].DocState? && slot.down[k].Ack?;
      AckIsTheReply(slot, k);
      forall q | 0 <= q < |slot.client.queue|
        ensures slot.client.queue[q].opId != slot.down[k].opId
      {
        InFlightNotQueued(slot, q);
      }
      SnapshotForgets(d, slot.client, Position(slot), slot.down, j, k);
    } else {
      forall k | 0 <= k < |slot.down| && slot.down[k].Ack?
        ensures slot.client.inflight.Some? && slot.down[k].opId == slot.client.inflight.value.opId
        ensures forall j :: 0 <= j < k ==>
                  !slot.down[j].DocState? && !slot.down[j].ResyncRequired? && !slot.down[j].Ack?
      {
        AckIsTheReply(slot, k);
      }
      DrainReaches(d, slot.client, Position(slot), slot.down);
    }
  }
}
