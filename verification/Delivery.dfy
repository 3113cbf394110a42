/** From one state machine to the other: messages as protocol lines over a byte stream. This is what makes
    the FIFO streams of the system model out of sockets. */
module Delivery {
  import opened Operations
  import opened Messages
  import opened Clients
  import opened Json
  import opened Utf8
  import opened Protocol
  import opened Transports

  function WireOp(op: Option<Operation>): Option<Operation> {
    if op == None then None else Some(EncodeOp(op.value))
  }

  /** A message with nothing set, as ts_message_init leaves it. */
  const BLANK := WireMessage("", "", "", "", "", -1, -1, -1, -1, None, None, None)

  function ServerWire(m: ServerMessage): WireMessage {
    match m
    case Welcome(clientId) => BLANK.(mtype := "WELCOME", clientId := clientId)
    case DocState(version, historyStart, content) =>
      BLANK.(mtype := "DOC_STATE", version := version, historyStartVersion := historyStart,
             content := if content == None then None else Some(Encode(content.value)))
    case Ack(clientId, opId, base, server, version, op, original) =>
      BLANK.(mtype := "ACK", clientId := clientId, opId := opId, baseVersion := base, serverVersion := server,
             version := version, op := WireOp(op), originalOp := WireOp(original))
    case RemoteOp(clientId, opId, server, version, op) =>
      BLANK.(mtype := "REMOTE_OP", clientId := clientId, opId := opId, serverVersion := server,
             version := version, op := WireOp(op))
    case ResyncRequired(opId, reason, server, historyStart) =>
      BLANK.(mtype := "RESYNC_REQUIRED", opId := opId, reason := reason, serverVersion := server,
             historyStartVersion := historyStart)
    case Error(opId, message) => BLANK.(mtype := "ERROR", opId := opId, message := message)
  }

  function ClientWire(m: ClientMessage): WireMessage {
    match m
    case SubmitOp(clientId, opId, base, op) =>
      BLANK.(mtype := "OP", clientId := clientId, opId := opId, baseVersion := base, op := WireOp(op))
    case RequestDoc => BLANK.(mtype := "REQUEST_DOC")
  }

  /** `w` says what `sent` says; only the top-level reason of a message with an operation, which no
      handler of such a message looks at, may differ. */
  predicate SaysTheSame(w: WireMessage, sent: WireMessage) {
    w.(reason := sent.reason) == sent && (sent.op == sent.originalOp == None ==> w.reason == sent.reason)
  }

  // ----- What the two programs read -----

  function ReadOp(op: Option<Operation>): Option<Operation> {
    if op == None then None else Some(op.value.(ch := Decode(op.value.ch)))
  }

  /** A line as the client looks at it: by its type, field by field. */
  function ReadServer(w: WireMessage): Option<ServerMessage> {
    if w.mtype == "DOC_STATE" then
      Some(DocState(w.version, w.historyStartVersion,
                    if w.content == None then None else Some(Decode(w.content.value))))
    else if w.mtype == "WELCOME" then Some(Welcome(w.clientId))
    else if w.mtype == "ACK" then
      Some(Ack(w.clientId, w.opId, w.baseVersion, w.serverVersion, w.version, ReadOp(w.op), ReadOp(w.originalOp)))
    else if w.mtype == "REMOTE_OP" then
      Some(RemoteOp(w.clientId, w.opId, w.serverVersion, w.version, ReadOp(w.op)))
    else if w.mtype == "RESYNC_REQUIRED" then
      Some(ResyncRequired(w.opId, w.reason, w.serverVersion, w.historyStartVersion))
    else if w.mtype == "ERROR" then Some(Error(w.opId, w.message))
    else None
  }

  /** A line as the server's dispatch looks at it. */
  function ReadClient(w: WireMessage): Option<ClientMessage> {
    if w.mtype == "OP" then Some(SubmitOp(w.clientId, w.opId, w.baseVersion, ReadOp(w.op)))
    else if w.mtype == "REQUEST_DOC" then Some(RequestDoc)
    else None
  }

  /** What a line does to the client, straight from its fields: each branch of the handler, with its defaults. */
  function HandleLine(c: Client, w: WireMessage): Client {
    if w.mtype == "DOC_STATE" then
      SetDocument(c, if w.content.Some? then Decode(w.content.value) else "",
                  if w.version < 0 then 0 else w.version,
                  if w.historyStartVersion < 0 then 0 else w.historyStartVersion)
    else if w.mtype == "WELCOME" then c.(clientId := if w.clientId == "" then c.clientId else w.clientId)
    else if w.mtype == "ACK" then HandleAck(c, w.opId, ReadOp(w.op), w.version)
    else if w.mtype == "REMOTE_OP" then HandleRemote(c, ReadOp(w.op), w.version)
    else if w.mtype == "RESYNC_REQUIRED" then c.(inflight := None, outbox := c.outbox + [RequestDoc])
    else c
  }

  lemma WireOpRead(op: Option<Operation>)
    ensures ReadOp(WireOp(op)) == op
  {
    if op.Some? {
      DecodeEncode(op.value.ch);
    }
  }

  /** No two of the types are the same string. */
  lemma TypesDiffer()
    ensures |"DOC_STATE"| == |"REMOTE_OP"| == 9 && |"WELCOME"| == 7 && |"ACK"| == 3
    ensures |"RESYNC_REQUIRED"| == 15 && |"ERROR"| == 5 && |"OP"| == 2 && |"REQUEST_DOC"| == 11
    ensures "DOC_STATE" != "REMOTE_OP"
  {
    assert "DOC_STATE"[0] != "REMOTE_OP"[0];
  }

  lemma ServerReads(w: WireMessage, m: ServerMessage)
    requires SaysTheSame(w, ServerWire(m))
    ensures ReadServer(w) == Some(m)
  {
    TypesDiffer();
    match m
    case DocState(_, _, content) =>
      if content.Some? {
        DecodeEncode(content.value);
      }
    case Ack(_, _, _, _, _, op, original) =>
      WireOpRead(op);
      WireOpRead(original);
    case RemoteOp(_, _, _, _, op) => WireOpRead(op);
    case Welcome(_) =>
    case ResyncRequired(_, _, _, _) =>
    case Error(_, _) =>
  }

  lemma ClientReads(w: WireMessage, m: ClientMessage)
    requires SaysTheSame(w, ClientWire(m))
    ensures ReadClient(w) == Some(m)
  {
    TypesDiffer();
    if m.SubmitOp? {
      WireOpRead(m.op);
    }
  }

  /** Looking at the fields of a line does what the message does that it is read as. */
  lemma LineHandled(c: Client, w: WireMessage)
    requires ReadServer(w).Some?
    ensures HandleLine(c, w) == Handle(c, ReadServer(w).value)
  {
  }

  // ----- Whole streams -----

  predicate Sendable(m: WireMessage) {
    WellFormed(m) && |EncodeMessage(m)| <= MAX_LINE_BYTES
  }

  function ServerWires(messages: seq<ServerMessage>): seq<WireMessage> {
    seq(|messages|, k requires 0 <= k < |messages| => ServerWire(messages[k]))
  }

  function ClientWires(messages: seq<ClientMessage>): seq<WireMessage> {
    seq(|messages|, k requires 0 <= k < |messages| => ClientWire(messages[k]))
  }

  /** What the n-th receive of a connection reports, whatever the reads. */
  function NthReceipt(bytes: string, n: nat): Receipt {
    ReceiptOf(NextLine(AfterReceives(bytes, n)))
  }

  lemma StreamSurvives(wires: seq<WireMessage>, n: nat)
    requires n < |wires| && forall k :: 0 <= k < |wires| ==> Sendable(wires[k])
    ensures var r := NthReceipt(SendAll(wires), n);
            r.Message? && r.decoded.Ok? && SaysTheSame(r.decoded.value, wires[n])
  {
    MessagesInOrder(wires, n);
    MessageRoundTrip(wires[n]);
  }

  /** The downlink: the n-th receive reads as the n-th message the server sent, and could have been sent as no
      other; so it does to the client what that message does. */
  lemma DownlinkIsFifo(messages: seq<ServerMessage>, n: nat, other: ServerMessage, c: Client)
    requires n < |messages| && forall k :: 0 <= k < |messages| ==> Sendable(ServerWire(messages[k]))
    ensures var r := NthReceipt(SendAll(ServerWires(messages)), n);
            && r.Message? && r.decoded.Ok? && ReadServer(r.decoded.value) == Some(messages[n])
            && (SaysTheSame(r.decoded.value, ServerWire(other)) <==> other == messages[n])
            && HandleLine(c, r.decoded.value) == Handle(c, messages[n])
  {
    var wires := ServerWires(messages);
    assert forall k :: 0 <= k < |wires| ==> wires[k] == ServerWire(messages[k]);
    StreamSurvives(wires, n);
    var w := NthReceipt(SendAll(wires), n).decoded.value;
    ServerReads(w, messages[n]);
    LineHandled(c, w);
    if SaysTheSame(w, ServerWire(other)) {
      ServerReads(w, other);
    }
  }

  /** The uplink, likewise. */
  lemma UplinkIsFifo(messages: seq<ClientMessage>, n: nat, other: ClientMessage)
    requires n < |messages| && forall k :: 0 <= k < |messages| ==> Sendable(ClientWire(messages[k]))
    ensures var r := NthReceipt(SendAll(ClientWires(messages)), n);
            && r.Message? && r.decoded.Ok? && ReadClient(r.decoded.value) == Some(messages[n])
            && (SaysTheSame(r.decoded.value, ClientWire(other)) <==> other == messages[n])
  {
    var wires := ClientWires(messages);
    assert forall k :: 0 <= k < |wires| ==> wires[k] == ClientWire(messages[k]);
    StreamSurvives(wires, n);
    var w := NthReceipt(SendAll(wires), n).decoded.value;
    ClientReads(w, messages[n]);
    if SaysTheSame(w, ClientWire(other)) {
      ClientReads(w, other);
    }
  }

  // ----- What the server sends can be sent -----

  /** An accepted operation, whose position and reason fit their fields, fits the wire. */
  lemma AcceptedOperationFits(op: Operation)
    requires Acceptable(op) && op.pos <= INT_MAX && FitsIn(op.reason, MAX_REASON)
    requires if op.kind == Insert then op.ch != "\0" else op.ch == ""
    ensures WellFormedOp(EncodeOp(op))
  {
    CountLeadsIsLength(op.ch);
    if op.kind == Insert {
      OneCharacterFits(op.ch);
    }
  }

  lemma OneCharacterFits(ch: string)
    requires |ch| == 1 && ch != "\0"
    ensures FitsIn(Encode(ch), MAX_UTF8_CHAR)
  {
    var cs := Characters(ch);
    assert cs == [EncodeChar(ch[0])] && cs[1..] == [];
    assert Flatten(cs) == cs[0] + Flatten(cs[1..]);
    EncodedNulFree(ch);
  }

  lemma EncodedNulFree(t: string)
    requires '\0' !in t
    ensures NulFree(Encode(t))
  {
    forall i | 0 <= i < |Encode(t)| ensures Encode(t)[i] != '\0' {
      EncodeIsCString(t, i);
    }
  }

  /** The snapshot of a text without NUL fits the wire. */
  lemma SnapshotFits(version: int, historyStart: int, text: string)
    requires -1 <= version <= INT_MAX && -1 <= historyStart <= INT_MAX && '\0' !in text
    ensures WellFormed(ServerWire(DocState(version, historyStart, Some(text))))
  {
    EncodedNulFree(text);
  }
}
