/** The client state machine of client_state.c: a queue of local edits, at most one of them in flight,
    and handlers for what the server sends. */
module Clients {
  import opened Operations
  import opened Messages
  import opened Decimals

  datatype Pending = Pending(opId: string, op: Operation, baseVersion: int)

  /** The client as a value. `outbox` is everything it has ever sent, oldest first. */
  datatype Client = Client(
    clientId: string, content: string, version: int, historyStartVersion: int,
    queue: seq<Pending>, inflight: Option<Pending>, nextOpNumber: nat, outbox: seq<ClientMessage>)

  function NewClient(clientId: string): Client {
    Client(clientId, "", 0, 0, [], None, 1, [])
  }

  /** "%.48s-%d" */
  function OpId(clientId: string, number: nat): string {
    clientId[..Min(48, |clientId|)] + "-" + Decimal(number)
  }

  function QueueOps(queue: seq<Pending>): seq<Operation> {
    seq(|queue|, k requires 0 <= k < |queue| => queue[k].op)
  }

  /** What a client has pending: the operation in flight, then the queue. */
  function PendingOps(c: Client): seq<Operation> {
    (if c.inflight.Some? then [c.inflight.value.op] else []) + QueueOps(c.queue)
  }

  function SubmitFor(clientId: string, p: Pending): ClientMessage {
    SubmitOp(clientId, p.opId, p.baseVersion, Some(p.op))
  }

  /** Sends the oldest queued operation, bound to the current version, unless one is in flight. */
  function Pump(c: Client): Client {
    if c.inflight.Some? || c.queue == [] then c
    else
      var next := c.queue[0].(baseVersion := c.version);
      c.(queue := c.queue[1..], inflight := Some(next), outbox := c.outbox + [SubmitFor(c.clientId, next)])
  }

  function SetDocument(c: Client, content: string, version: int, historyStartVersion: int): Client {
    Pump(c.(content := content, version := version, historyStartVersion := historyStartVersion, inflight := None))
  }

  function QueueOperation(c: Client, op: Operation): Client {
    var pending := Pending(OpId(c.clientId, c.nextOpNumber), op, -1);
    Pump(c.(nextOpNumber := c.nextOpNumber + 1, queue := c.queue + [pending]))
  }

  function ApplyAuthoritative(c: Client, op: Option<Operation>, version: int): Client {
    if op == None then c
    else c.(content := ApplyOp(c.content, op.value), version := if version >= 0 then version else c.version)
  }

  function HandleAck(c: Client, opId: string, op: Option<Operation>, version: int): Client {
    if c.inflight == None || c.inflight.value.opId != opId then c
    else Pump(ApplyAuthoritative(c, op, version).(inflight := None))
  }

  function HandleRemote(c: Client, op: Option<Operation>, version: int): Client {
    if version <= c.version then c
    else if version != c.version + 1 then c.(outbox := c.outbox + [RequestDoc])
    else ApplyAuthoritative(c, op, version)
  }

  function Handle(c: Client, m: ServerMessage): Client {
    match m
    case DocState(version, historyStart, content) =>
      SetDocument(c, if content == None then "" else content.value,
                  if version < 0 then 0 else version, if historyStart < 0 then 0 else historyStart)
    case Welcome(clientId) => if clientId != "" then c.(clientId := clientId) else c
    case Ack(_, opId, _, _, version, op, _) => HandleAck(c, opId, op, version)
    case RemoteOp(_, _, _, version, op) => HandleRemote(c, op, version)
    case ResyncRequired(_, _, _, _) => c.(inflight := None, outbox := c.outbox + [RequestDoc])
    case Error(_, _) => c
  }

  // ----- The state machine as it runs: a growable array, shifted on every pop -----

  class ClientState {
    var clientId: string
    var content: string
    var version: int
    var historyStartVersion: int
    var queue: array<Pending>
    var queueLen: nat
    var inflight: Option<Pending>
    var nextOpNumber: nat
    var outbox: seq<ClientMessage>

    ghost predicate Valid()
      reads this
    {
      queueLen <= queue.Length
    }

    ghost function View(): Client
      reads this, queue
      requires Valid()
    {
      Client(clientId, content, version, historyStartVersion, queue[..queueLen], inflight, nextOpNumber, outbox)
    }

    constructor (id: string)
      ensures Valid() && fresh(queue) && View() == NewClient(id)
    {
      clientId, content, version, historyStartVersion := id, "", 0, 0;
      queue := new Pending[0];
      queueLen, inflight, nextOpNumber, outbox := 0, None, 1, [];
    }

    method Send(message: ClientMessage)
      requires Valid()
      modifies this`outbox
      ensures Valid() && View() == old(View()).(outbox := old(outbox) + [message])
    {
      outbox := outbox + [message];
    }

    /** Doubles the array, from 8, when it is full. */
    method EnsureQueueCapacity()
      requires Valid()
      modifies this`queue
      ensures Valid() && queueLen < queue.Length && (queue == old(queue) || fresh(queue))
      ensures View() == old(View())
    {
      if queueLen < queue.Length {
        return;
      }
      var next := if queue.Length == 0 then 8 else queue.Length * 2;
      var grown := new Pending[next];
      forall i | 0 <= i < queueLen {
        grown[i] := queue[i];
      }
      queue := grown;
    }

    method PopQueue() returns (next: Option<Pending>)
      requires Valid()
      modifies this`queueLen, queue
      ensures Valid()
      ensures if old(queueLen) == 0 then next == None && View() == old(View())
              else next == Some(old(View()).queue[0]) && View() == old(View()).(queue := old(View()).queue[1..])
    {
      if queueLen == 0 {
        return None;
      }
      next := Some(queue[0]);
      forall i | 0 <= i < queueLen - 1 {
        queue[i] := queue[i + 1];
      }
      queueLen := queueLen - 1;
    }

    method StatePump()
      requires Valid()
      modifies this, queue
      ensures Valid() && queue == old(queue)
      ensures View() == Pump(old(View()))
    {
      if inflight.Some? || queueLen == 0 {
        return;
      }
      var popped := PopQueue();
      var next := popped.value.(baseVersion := version);
      inflight := Some(next);
      Send(SubmitOp(clientId, next.opId, next.baseVersion, Some(next.op)));
    }

    method SetDocumentState(newContent: string, newVersion: int, newHistoryStart: int)
      requires Valid()
      modifies this, queue
      ensures Valid() && queue == old(queue)
      ensures View() == SetDocument(old(View()), newContent, newVersion, newHistoryStart)
    {
      content := newContent;
      version := newVersion;
      historyStartVersion := newHistoryStart;
      inflight := None;
      StatePump();
    }

    method Enqueue(op: Operation) returns (opId: string)
      requires Valid()
      modifies this, queue
      ensures Valid() && (queue == old(queue) || fresh(queue))
      ensures opId == OpId(old(clientId), old(nextOpNumber))
      ensures View() == QueueOperation(old(View()), op)
    {
      EnsureQueueCapacity();
      opId := clientId[..Min(48, |clientId|)] + "-" + Decimal(nextOpNumber);
      nextOpNumber := nextOpNumber + 1;
      queue[queueLen] := Pending(opId, op, -1);
      queueLen := queueLen + 1;
      assert queue[..queueLen] == old(queue[..queueLen]) + [Pending(opId, op, -1)];
      StatePump();
    }

    method ApplyAuthoritativeOp(op: Option<Operation>, newVersion: int)
      requires Valid()
      modifies this`content, this`version
      ensures Valid() && View() == ApplyAuthoritative(old(View()), op, newVersion)
    {
      if op == None {
        return;
      }
      content := ApplyOp(content, op.value);
      if newVersion >= 0 {
        version := newVersion;
      }
    }

    method HandleAckMessage(opId: string, op: Option<Operation>, newVersion: int)
      requires Valid()
      modifies this, queue
      ensures Valid() && queue == old(queue)
      ensures View() == HandleAck(old(View()), opId, op, newVersion)
    {
      if inflight == None || inflight.value.opId != opId {
        return;
      }
      ApplyAuthoritativeOp(op, newVersion);
      inflight := None;
      StatePump();
    }

    method HandleRemoteMessage(op: Option<Operation>, incomingVersion: int)
      requires Valid()
      modifies this
      ensures Valid() && queue == old(queue)
      ensures View() == HandleRemote(old(View()), op, incomingVersion)
    {
      if incomingVersion <= version {
        return;
      }
      if incomingVersion != version + 1 {
        Send(RequestDoc);
        return;
      }
      ApplyAuthoritativeOp(op, incomingVersion);
    }

    method HandleMessage(message: ServerMessage)
      requires Valid()
      modifies this, queue
      ensures Valid() && queue == old(queue)
      ensures View() == Handle(old(View()), message)
    {
      match message
      case DocState(v, h, c) =>
        SetDocumentState(if c == None then "" else c.value, if v < 0 then 0 else v, if h < 0 then 0 else h);
      case Welcome(id) =>
        if id != "" {
          clientId := id;
        }
      case Ack(_, opId, _, _, v, op, _) => HandleAckMessage(opId, op, v);
      case RemoteOp(_, _, _, v, op) => HandleRemoteMessage(op, v);
      case ResyncRequired(_, _, _, _) =>
        inflight := None;
        Send(RequestDoc);
      case Error(_, _) =>
    }
  }
}
