/** The server's connection list and message dispatch, as server.c runs them on a linked list. Each
    method holds the lock for its whole body, so it is one atomic step. */
module Servers {
  import opened Operations
  import opened Messages
  import opened Documents
  import opened Systems

  /** One connection; `sent` is everything written to its socket. */
  class Connection {
    var clientId: string
    var sent: seq<ServerMessage>
    var next: Connection?

    constructor ()
      ensures clientId == "" && sent == [] && next == null
    {
      clientId, sent, next := "", [], null;
    }
  }

  /** A connection as a value. */
  datatype Wire = Wire(clientId: string, sent: seq<ServerMessage>)

  /** What one connection is sent for a processed operation. */
  function Replies(r: ProcessResult, submitter: bool): seq<ServerMessage> {
    match r
    case Processed(ack, remote, _, _) => if submitter then [ack] else [remote]
    case Refused(error) => if submitter then [error] else []
    case Resync(required, state) => if submitter then [required, state] else []
  }

  function Replied(wires: seq<Wire>, submitter: string, r: ProcessResult): seq<Wire> {
    seq(|wires|, k requires 0 <= k < |wires| =>
      wires[k].(sent := wires[k].sent + Replies(r, wires[k].clientId == submitter)))
  }

  class Server {
    const document: Document
    var clients: Connection?
    var nextClientNumber: nat
    ghost var list: seq<Connection>

    /** The `next` pointers from `clients` on spell out `list`. */
    ghost predicate Linked()
      reads this`clients, this`list, list`next
    {
      && clients == At(list, 0)
      && (forall k :: 0 <= k < |list| ==> list[k].next == At(list, k + 1))
      && (forall j, k :: 0 <= j < k < |list| ==> list[j] != list[k])
    }

    static ghost function At(list: seq<Connection>, k: nat): Connection? {
      if k < |list| then list[k] else null
    }

    ghost function Ids(): set<string>
      reads this`list, list`clientId
    {
      set k | 0 <= k < |list| :: list[k].clientId
    }

    ghost predicate DistinctNames()
      reads this`list, list`clientId
    {
      forall j, k :: 0 <= j < k < |list| ==> list[j].clientId != list[k].clientId
    }

    /** What the connections are called and what was written to each. */
    ghost predicate Carries(wires: seq<Wire>)
      reads this`list, list`clientId, list`sent
    {
      && |wires| == |list|
      && forall k :: 0 <= k < |list| ==> list[k].clientId == wires[k].clientId && list[k].sent == wires[k].sent
    }

    constructor (initial: string, limit: nat)
      ensures Linked() && DistinctNames() && list == [] && nextClientNumber == 1
      ensures document.Valid() && document.View() == Start(initial, limit).doc
      ensures fresh(document) && fresh(document.history)
    {
      document := new Document(initial, limit);
      clients, nextClientNumber, list := null, 1, [];
    }

    method ClientIdExists(id: string) returns (found: bool)
      requires Linked()
      ensures found <==> id in Ids()
    {
      var client := clients;
      ghost var k := 0;
      while client != null
        invariant k <= |list| && client == At(list, k)
        invariant forall j :: 0 <= j < k ==> list[j].clientId != id
        decreases |list| - k
      {
        if client.clientId == id {
          return true;
        }
        client := client.next;
        k := k + 1;
      }
      return false;
    }

    /** Takes the next automatic name, and says whether somebody has it already. */
    method TakeName(ghost ids: set<string>) returns (id: string, taken: bool)
      requires Linked() && ids == Ids()
      modifies this`nextClientNumber
      ensures nextClientNumber == old(nextClientNumber) + 1
      ensures id == AutoName(old(nextClientNumber)) && (taken <==> id in ids)
    {
      id := AutoName(nextClientNumber);
      nextClientNumber := nextClientNumber + 1;
      taken := ClientIdExists(id);
    }

    /** The first automatic name from `nextClientNumber` on that is free; the search gets there. */
    method FirstFreeName(ghost ids: set<string>) returns (id: string)
      requires Linked() && ids == Ids()
      modifies this`nextClientNumber
      ensures (id, nextClientNumber) == Automatic(ids, old(nextClientNumber))
    {
      ghost var first, tried := FreeNumber(ids, nextClientNumber), nextClientNumber;
      var taken: bool;
      id, taken := TakeName(ids);
      FreeNumberReached(ids, tried, tried);
      while taken
        invariant old(nextClientNumber) <= tried <= first && nextClientNumber == tried + 1 && id == AutoName(tried)
        invariant taken <==> tried < first
        decreases first - tried
      {
        tried := nextClientNumber;
        id, taken := TakeName(ids);
        FreeNumberReached(ids, old(nextClientNumber), tried);
      }
    }

    static lemma FreeNumberReached(ids: set<string>, start: nat, m: nat)
      requires start <= m <= FreeNumber(ids, start)
      ensures AutoName(m) in ids <==> m < FreeNumber(ids, start)
    {
    }

    /** The requested id when it is free, else the first free automatic one. */
    method ChooseClientId(ghost ids: set<string>, requested: string) returns (id: string)
      requires Linked() && ids == Ids()
      modifies this`nextClientNumber
      ensures (id, nextClientNumber) == ChooseId(ids, requested, old(nextClientNumber))
    {
      var taken := ClientIdExists(requested);
      if requested != "" && !taken {
        id := requested;
      } else {
        id := FirstFreeName(ids);
      }
    }

    method RegisterClient(client: Connection)
      requires Linked() && client !in list
      modifies this`clients, this`list, client`next
      ensures Linked() && list == [client] + old(list)
    {
      client.next := clients;
      clients := client;
      list := [client] + list;
    }

    /** Takes connection k out of the chain. */
    method Unlink(ghost k: nat, previous: Connection?, client: Connection)
      requires Linked() && k < |list| && client == list[k]
      requires previous == if k == 0 then null else list[k - 1]
      modifies this`clients, this`list, list`next
      ensures Linked() && list == old(list[..k] + list[k + 1..])
    {
      if previous == null {
        clients := client.next;
      } else {
        previous.next := client.next;
      }
      list := list[..k] + list[k + 1..];
    }

    /** Unlinks the first connection of that name; ids being distinct, that is exactly the leaver. */
    method UnregisterClient(ghost leaver: nat, id: string)
      requires Linked() && DistinctNames() && leaver < |list| && list[leaver].clientId == id
      modifies this`clients, this`list, list`next
      ensures Linked() && DistinctNames()
      ensures list == old(list[..leaver] + list[leaver + 1..])
    {
      var previous: Connection? := null;
      var client := clients;
      ghost var k := 0;
      while client != null && client.clientId != id
        invariant k <= leaver && client == list[k]
        invariant previous == if k == 0 then null else list[k - 1]
        decreases leaver - k
      {
        previous := client;
        client := client.next;
        k := k + 1;
      }
      if client != null {
        Unlink(k, previous, client);
      }
    }

    /** Sends to every connection but the excluded one. */
    method BroadcastMessage(message: ServerMessage, excluded: string)
      requires Linked()
      modifies list`sent
      ensures forall k :: 0 <= k < |list| ==>
                list[k].sent == old(list[k].sent) + if list[k].clientId == excluded then [] else [message]
    {
      var client := clients;
      ghost var k := 0;
      while client != null
        invariant k <= |list| && client == At(list, k)
        invariant forall j :: 0 <= j < k ==>
                    list[j].sent == old(list[j].sent) + if list[j].clientId == excluded then [] else [message]
        invariant forall j :: k <= j < |list| ==> list[j].sent == old(list[j].sent)
        decreases |list| - k
      {
        if client.clientId != excluded {
          client.sent := client.sent + [message];
        }
        client := client.next;
        k := k + 1;
      }
    }

    /** With distinct ids, the submitter gets exactly the ACK and everybody else exactly the REMOTE_OP; a
        rejection goes to the submitter alone. */
    method SendReplies(client: Connection, r: ProcessResult)
      requires Linked() && DistinctNames() && client in list
      modifies list`sent
      ensures forall k :: 0 <= k < |list| ==>
                list[k].sent == old(list[k].sent) + Replies(r, list[k].clientId == client.clientId)
    {
      match r
      case Processed(ack, remote, _, _) =>
        client.sent := client.sent + [ack];
        BroadcastMessage(remote, client.clientId);
      case Refused(error) =>
        client.sent := client.sent + [error];
      case Resync(required, state) =>
        client.sent := client.sent + [required];
        client.sent := client.sent + [state];
    }

    /** The OP branch of dispatch_message. */
    method DispatchOp(client: Connection, opId: string, baseVersion: int, op: Option<Operation>, ghost wires: seq<Wire>)
      requires Linked() && DistinctNames() && client in list && document.Valid() && Carries(wires)
      modifies document, document.history, list`sent
      ensures document.Valid()
      ensures document.View() == Process(old(document.View()), client.clientId, opId, baseVersion, op).0
      ensures Carries(Replied(wires, client.clientId,
                              Process(old(document.View()), client.clientId, opId, baseVersion, op).1))
    {
      var r := document.ProcessOperation(client.clientId, opId, baseVersion, op);
      SendReplies(client, r);
      assert Carries(Replied(wires, client.clientId, r));
    }

    method DispatchRequestDoc(client: Connection)
      requires document.Valid()
      modifies client`sent
      ensures client.sent == old(client.sent) + [StateMessage(document.View())]
    {
      var snapshot := document.Snapshot();
      client.sent := client.sent + [snapshot];
    }

    /** Gives a newcomer a name nobody has, and links it in. */
    method Enlist(client: Connection, id: string)
      requires Linked() && DistinctNames() && client !in list && id !in Ids()
      modifies this`clients, this`list, client`next, client`clientId
      ensures Linked() && DistinctNames() && list == [client] + old(list) && client.clientId == id
    {
      assert forall k :: 0 <= k < |list| ==> list[k].clientId in Ids();
      client.clientId := id;
      RegisterClient(client);
    }

    method Greet(client: Connection)
      requires document.Valid()
      modifies client`sent
      ensures client.sent == old(client.sent) + [Welcome(client.clientId), StateMessage(document.View())]
    {
      client.sent := client.sent + [Welcome(client.clientId)];
      DispatchRequestDoc(client);
    }

    /** The join prologue: choose an id, register, send WELCOME and the snapshot. */
    method Admit(client: Connection, requested: string)
      requires Linked() && DistinctNames() && client !in list && client.sent == [] && document.Valid()
      modifies this`clients, this`list, this`nextClientNumber, client
      ensures Linked() && DistinctNames() && list == [client] + old(list)
      ensures (client.clientId, nextClientNumber) == ChooseId(old(Ids()), requested, old(nextClientNumber))
      ensures client.sent == [Welcome(client.clientId), StateMessage(document.View())]
    {
      var id := ChooseClientId(Ids(), requested);
      Enlist(client, id);
      Greet(client);
    }

    // ----- The server's side of the system's steps -----

    /** This server is that of `s`: on each connection it has sent what was delivered, `given`, and what is
        still on its way. */
    ghost predicate Represents(s: System, given: seq<seq<ServerMessage>>)
      reads this, list, document, document.history
    {
      && Linked() && DistinctNames() && document.Valid() && document.View() == s.doc
      && nextClientNumber == s.nextClientNumber && |s.slots| == |given| && Carries(Spoken(s.slots, given))
    }

    lemma SlotNamesDistinct(s: System, given: seq<seq<ServerMessage>>)
      requires Represents(s, given)
      ensures |list| == |s.slots| && forall k :: 0 <= k < |list| ==> list[k].clientId == s.slots[k].id
      ensures forall j, k :: 0 <= j < k < |s.slots| ==> s.slots[j].id != s.slots[k].id
    {
      assert forall k :: 0 <= k < |list| ==> Spoken(s.slots, given)[k].clientId == s.slots[k].id;
    }

    method ServeOp(client: Connection, opId: string, baseVersion: int, op: Option<Operation>,
                   ghost s: System, ghost t: System, ghost given: seq<seq<ServerMessage>>)
      requires Represents(s, given) && client in list && Answered(s, t, given, client.clientId, opId, baseVersion, op)
      modifies document, document.history, list`sent
      ensures Represents(t, given)
    {
      DispatchOp(client, opId, baseVersion, op, Spoken(s.slots, given));
    }

    /** One message more on one connection. */
    method Answer(client: Connection, ghost i: nat, ghost wires: seq<Wire>)
      requires Linked() && i < |list| && client == list[i] && document.Valid() && Carries(wires)
      modifies client`sent
      ensures Carries(wires[i := Wire(wires[i].clientId, wires[i].sent + [StateMessage(document.View())])])
    {
      DispatchRequestDoc(client);
    }

    method ServeRequest(client: Connection, ghost s: System, ghost given: seq<seq<ServerMessage>>, ghost i: nat)
      requires Represents(s, given) && i < |list| && client == list[i]
      requires CanServe(s.slots[i]) && s.slots[i].client.outbox[s.slots[i].served] == RequestDoc
      modifies client`sent
      ensures Represents(ServeSlot(s, i), given)
    {
      SpokenWith(s.slots, given, i, StateMessage(s.doc));
      Answer(client, i, Spoken(s.slots, given));
    }

    /** dispatch_message is the system's Serve step. */
    method DispatchMessage(client: Connection, message: ClientMessage,
                           ghost s: System, ghost given: seq<seq<ServerMessage>>, ghost i: nat)
      requires Represents(s, given) && i < |list| && client == list[i]
      requires CanServe(s.slots[i]) && message == s.slots[i].client.outbox[s.slots[i].served]
      modifies document, document.history, list`sent
      ensures Represents(Perform(s, Serve(i)), given)
    {
      match message
      case RequestDoc => ServeRequest(client, s, given, i);
      case SubmitOp(_, opId, base, op) =>
        SlotNamesDistinct(s, given);
        ServeReplies(s, given, i, client.clientId);
        ServeOp(client, opId, base, op, s, Perform(s, Serve(i)), given);
    }

    /** The join prologue is the system's Join step. */
    method Join(client: Connection, requested: string, ghost s: System, ghost given: seq<seq<ServerMessage>>)
      requires Represents(s, given) && client !in list && client.sent == []
      modifies this`clients, this`list, this`nextClientNumber, client
      ensures Represents(Perform(s, Step.Join(requested)), [[]] + given)
    {
      SlotNamesDistinct(s, given);
      assert Ids() == IdsOf(s.slots);
      Admit(client, requested);
    }

    method Remove(client: Connection, ghost i: nat, ghost wires: seq<Wire>)
      requires Linked() && DistinctNames() && i < |list| && client == list[i] && Carries(wires)
      modifies this`clients, this`list, list`next
      ensures Linked() && DistinctNames() && Carries(wires[..i] + wires[i + 1..])
    {
      UnregisterClient(i, client.clientId);
    }

    /** Unregistering the leaver's id is the system's Leave step. */
    method Leave(client: Connection, ghost s: System, ghost given: seq<seq<ServerMessage>>, ghost i: nat)
      requires Represents(s, given) && i < |list| && client == list[i]
      modifies this`clients, this`list, list`next
      ensures Represents(Perform(s, Step.Leave(i)), given[..i] + given[i + 1..])
    {
      SpokenWithout(s.slots, given, i);
      Remove(client, i, Spoken(s.slots, given));
    }
  }

  /** The connections that the slots of a system describe. */
  function Spoken(slots: seq<Slot>, given: seq<seq<ServerMessage>>): seq<Wire>
    requires |slots| == |given|
  {
    seq(|slots|, k requires 0 <= k < |slots| => Wire(slots[k].id, given[k] + slots[k].down))
  }

  lemma SpokenWith(slots: seq<Slot>, given: seq<seq<ServerMessage>>, i: nat, m: ServerMessage)
    requires i < |slots| == |given|
    ensures var wire := Spoken(slots, given)[i];
            Spoken(slots[i := Push(Served(slots[i]), [m])], given)
            == Spoken(slots, given)[i := Wire(wire.clientId, wire.sent + [m])]
  {
    assert given[i] + (slots[i].down + [m]) == given[i] + slots[i].down + [m];
  }

  lemma SpokenWithout(slots: seq<Slot>, given: seq<seq<ServerMessage>>, i: nat)
    requires i < |slots| == |given|
    ensures Spoken(slots[..i] + slots[i + 1..], given[..i] + given[i + 1..])
            == Spoken(slots, given)[..i] + Spoken(slots, given)[i + 1..]
  {
  }

  /** A served operation adds to each downlink what `Replies` says, and to nothing else. */
  lemma AnswerReplies(s: System, given: seq<seq<ServerMessage>>, i: nat, doc: Doc, r: ProcessResult)
    requires i < |s.slots| == |given| && forall j, k :: 0 <= j < k < |s.slots| ==> s.slots[j].id != s.slots[k].id
    ensures var t := Answer(s, i, Served(s.slots[i]), doc, r);
            && |t.slots| == |s.slots| && t.nextClientNumber == s.nextClientNumber
            && t.doc == (if r.Processed? then doc else s.doc)
            && Spoken(t.slots, given) == Replied(Spoken(s.slots, given), s.slots[i].id, r)
  {
    var t := Answer(s, i, Served(s.slots[i]), doc, r);
    forall k | 0 <= k < |s.slots|
      ensures Wire(t.slots[k].id, given[k] + t.slots[k].down)
              == Wire(s.slots[k].id, given[k] + s.slots[k].down + Replies(r, s.slots[k].id == s.slots[i].id))
    {
      assert t.slots[k].down == s.slots[k].down + Replies(r, k == i);
      assert k != i ==> s.slots[k].id != s.slots[i].id;
    }
    assert |Spoken(t.slots, given)| == |Replied(Spoken(s.slots, given), s.slots[i].id, r)|;
  }

  /** `t` is `s` after the document processed that operation and the replies went out. */
  ghost predicate Answered(s: System, t: System, given: seq<seq<ServerMessage>>,
                           id: string, opId: string, base: int, op: Option<Operation>) {
    var (doc, r) := Process(s.doc, id, opId, base, op);
    && |s.slots| == |t.slots| == |given| && t.nextClientNumber == s.nextClientNumber && t.doc == doc
    && Spoken(t.slots, given) == Replied(Spoken(s.slots, given), id, r)
  }

  lemma ServeReplies(s: System, given: seq<seq<ServerMessage>>, i: nat, id: string)
    requires i < |s.slots| == |given| && id == s.slots[i].id && CanServe(s.slots[i])
    requires forall j, k :: 0 <= j < k < |s.slots| ==> s.slots[j].id != s.slots[k].id
    requires s.slots[i].client.outbox[s.slots[i].served].SubmitOp?
    ensures var m := s.slots[i].client.outbox[s.slots[i].served];
            Answered(s, ServeSlot(s, i), given, id, m.opId, m.baseVersion, m.op)
  {
    var m := s.slots[i].client.outbox[s.slots[i].served];
    var (doc, r) := Process(s.doc, id, m.opId, m.baseVersion, m.op);
    AnswerReplies(s, given, i, doc, r);
  }
}
