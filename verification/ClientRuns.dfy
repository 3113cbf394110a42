/** What holds of one client over every sequence of key strokes and server messages. */
module ClientRuns {
  import opened Operations
  import opened Messages
  import opened Decimals
  import opened Documents
  import opened Clients

  datatype Event = Typed(op: Operation) | Received(message: ServerMessage)

  function React(c: Client, e: Event): Client {
    match e
    case Typed(op) => QueueOperation(c, op)
    case Received(m) => Handle(c, m)
  }

  function Run(c: Client, events: seq<Event>): Client {
    if events == [] then c else React(Run(c, events[..|events| - 1]), events[|events| - 1])
  }

  // ----- Nothing typed is lost, repeated or reordered -----

  datatype Edit = Edit(opId: string, op: Operation)

  /** The operations among the messages sent, oldest first. */
  function SentEdits(outbox: seq<ClientMessage>): seq<Edit> {
    if outbox == [] then []
    else
      var earlier, last := SentEdits(outbox[..|outbox| - 1]), outbox[|outbox| - 1];
      if last.SubmitOp? && last.op.Some? then earlier + [Edit(last.opId, last.op.value)] else earlier
  }

  function WaitingEdits(queue: seq<Pending>): seq<Edit> {
    seq(|queue|, i requires 0 <= i < |queue| => Edit(queue[i].opId, queue[i].op))
  }

  /** What has been typed, with the id each edit was given. */
  function TypedEdits(c: Client, events: seq<Event>): seq<Edit> {
    if events == [] then []
    else
      var earlier, before, last := events[..|events| - 1], Run(c, events[..|events| - 1]), events[|events| - 1];
      TypedEdits(c, earlier)
      + (if last.Typed? then [Edit(OpId(before.clientId, before.nextOpNumber), last.op)] else [])
  }

  function Backlog(c: Client): seq<Edit> {
    SentEdits(c.outbox) + WaitingEdits(c.queue)
  }

  lemma PumpKeepsBacklog(c: Client)
    ensures Backlog(Pump(c)) == Backlog(c)
  {
    var d := Pump(c);
    if c.inflight == None && c.queue != [] {
      assert d.outbox[..|d.outbox| - 1] == c.outbox;
      assert SentEdits(d.outbox) == SentEdits(c.outbox) + [Edit(c.queue[0].opId, c.queue[0].op)];
      assert WaitingEdits(c.queue) == [Edit(c.queue[0].opId, c.queue[0].op)] + WaitingEdits(d.queue);
    }
  }

  lemma RequestKeepsSent(outbox: seq<ClientMessage>)
    ensures SentEdits(outbox + [RequestDoc]) == SentEdits(outbox)
  {
    assert (outbox + [RequestDoc])[..|outbox|] == outbox;
  }

  lemma HandleKeepsBacklog(c: Client, m: ServerMessage)
    ensures Backlog(Handle(c, m)) == Backlog(c) && Handle(c, m).nextOpNumber == c.nextOpNumber
  {
    RequestKeepsSent(c.outbox);
    match m
    case DocState(v, h, t) =>
      PumpKeepsBacklog(c.(content := if t == None then "" else t.value, version := if v < 0 then 0 else v,
                          historyStartVersion := if h < 0 then 0 else h, inflight := None));
    case Ack(_, opId, _, _, v, op, _) =>
      PumpKeepsBacklog(ApplyAuthoritative(c, op, v).(inflight := None));
    case Welcome(_) =>
    case RemoteOp(_, _, _, _, _) =>
    case ResyncRequired(_, _, _, _) =>
    case Error(_, _) =>
  }

  lemma TypingExtendsBacklog(c: Client, op: Operation)
    ensures Backlog(QueueOperation(c, op)) == Backlog(c) + [Edit(OpId(c.clientId, c.nextOpNumber), op)]
    ensures QueueOperation(c, op).nextOpNumber == c.nextOpNumber + 1
  {
    var pending := Pending(OpId(c.clientId, c.nextOpNumber), op, -1);
    var d := c.(nextOpNumber := c.nextOpNumber + 1, queue := c.queue + [pending]);
    PumpKeepsBacklog(d);
    assert WaitingEdits(d.queue) == WaitingEdits(c.queue) + [Edit(pending.opId, op)];
  }

  /** Queue conservation: on every run, the operations sent followed by those still queued are the
      operations typed, in order, each once. */
  lemma {:induction false} QueueConservation(id: string, events: seq<Event>)
    ensures Backlog(Run(NewClient(id), events)) == TypedEdits(NewClient(id), events)
    ensures Run(NewClient(id), events).nextOpNumber == |TypedEdits(NewClient(id), events)| + 1
  {
    if events != [] {
      var earlier, last := events[..|events| - 1], events[|events| - 1];
      QueueConservation(id, earlier);
      var before := Run(NewClient(id), earlier);
      match last
      case Typed(op) => TypingExtendsBacklog(before, op);
      case Received(m) => HandleKeepsBacklog(before, m);
    }
  }

  lemma OpIdNumber(a: string, m: nat, b: string, n: nat)
    requires OpId(a, m) == OpId(b, n)
    ensures m == n
  {
    SuffixNumeral(a[..Min(48, |a|)], m, b[..Min(48, |b|)], n, '-');
  }

  /** The i-th edit carries number i + 1, under whatever name the client then had. */
  lemma {:induction false} TypedIdNumbered(id: string, events: seq<Event>, i: nat) returns (name: string)
    requires i < |TypedEdits(NewClient(id), events)|
    ensures TypedEdits(NewClient(id), events)[i].opId == OpId(name, i + 1)
  {
    var earlier, last := events[..|events| - 1], events[|events| - 1];
    QueueConservation(id, earlier);
    if i < |TypedEdits(NewClient(id), earlier)| {
      name := TypedIdNumbered(id, earlier, i);
    } else {
      name := Run(NewClient(id), earlier).clientId;
    }
  }

  /** No two edits of a client share an operation id, even when a WELCOME renames it in between. */
  lemma OpIdsDistinct(id: string, events: seq<Event>, i: nat, j: nat)
    requires i < j < |TypedEdits(NewClient(id), events)|
    ensures TypedEdits(NewClient(id), events)[i].opId != TypedEdits(NewClient(id), events)[j].opId
  {
    var a := TypedIdNumbered(id, events, i);
    var b := TypedIdNumbered(id, events, j);
    if OpId(a, i + 1) == OpId(b, j + 1) {
      OpIdNumber(a, i + 1, b, j + 1);
    }
  }

  // ----- At most one operation in flight -----

  /** The three things that free the client to send again. */
  predicate Releases(c: Client, e: Event) {
    c.inflight.Some? && e.Received? &&
    (e.message.DocState? || e.message.ResyncRequired? || (e.message.Ack? && e.message.opId == c.inflight.value.opId))
  }

  function ReleaseCount(c: Client, events: seq<Event>): nat {
    if events == [] then 0
    else
      var earlier := events[..|events| - 1];
      ReleaseCount(c, earlier) + (if Releases(Run(c, earlier), events[|events| - 1]) then 1 else 0)
  }

  function InFlightCount(c: Client): nat {
    if c.inflight.Some? then 1 else 0
  }

  /** A send is bound to the version held at that moment, and is then what is in flight. */
  ghost predicate Sends(c: Client, d: Client) {
    && d.inflight.Some? && d.inflight.value.baseVersion == d.version
    && d.outbox == c.outbox + [SubmitFor(d.clientId, d.inflight.value)]
  }

  ghost predicate SendsAccountedFor(c: Client, d: Client, released: bool) {
    && |SentEdits(d.outbox)| + InFlightCount(c)
       == |SentEdits(c.outbox)| + InFlightCount(d) + (if released then 1 else 0)
    && (|SentEdits(d.outbox)| > |SentEdits(c.outbox)| ==> Sends(c, d))
  }

  lemma PumpSends(c: Client)
    ensures SendsAccountedFor(c, Pump(c), false)
  {
    var d := Pump(c);
    if d.outbox != c.outbox {
      assert d.outbox[..|d.outbox| - 1] == c.outbox;
    }
  }

  lemma HandleSends(c: Client, m: ServerMessage)
    ensures SendsAccountedFor(c, Handle(c, m), Releases(c, Received(m)))
  {
    match m
    case DocState(v, h, t) =>
      PumpSends(c.(content := if t == None then "" else t.value, version := if v < 0 then 0 else v,
                   historyStartVersion := if h < 0 then 0 else h, inflight := None));
    case Ack(_, opId, _, _, v, op, _) => PumpSends(ApplyAuthoritative(c, op, v).(inflight := None));
    case Welcome(_) =>
    case RemoteOp(_, _, _, _, _) => RequestKeepsSent(c.outbox);
    case ResyncRequired(_, _, _, _) => RequestKeepsSent(c.outbox);
    case Error(_, _) =>
  }

  lemma ReactSends(c: Client, e: Event)
    ensures SendsAccountedFor(c, React(c, e), Releases(c, e))
  {
    match e
    case Typed(op) =>
      var pending := Pending(OpId(c.clientId, c.nextOpNumber), op, -1);
      PumpSends(c.(nextOpNumber := c.nextOpNumber + 1, queue := c.queue + [pending]));
    case Received(m) => HandleSends(c, m);
  }

  /** On every run, the sends are the releases plus the one operation that may still be in flight: two
      sends are always separated by a matching ACK, a DOC_STATE or a RESYNC_REQUIRED. */
  lemma {:induction false} OneInFlight(id: string, events: seq<Event>)
    ensures var c := Run(NewClient(id), events);
            |SentEdits(c.outbox)| == ReleaseCount(NewClient(id), events) + InFlightCount(c)
  {
    if events != [] {
      var earlier := events[..|events| - 1];
      OneInFlight(id, earlier);
      ReactSends(Run(NewClient(id), earlier), events[|events| - 1]);
    }
  }

  // ----- Asking for the document -----

  function Requests(outbox: seq<ClientMessage>): nat {
    if outbox == [] then 0
    else Requests(outbox[..|outbox| - 1]) + (if outbox[|outbox| - 1] == RequestDoc then 1 else 0)
  }

  function ResyncsIn(events: seq<Event>): nat {
    if events == [] then 0
    else
      var last := events[|events| - 1];
      ResyncsIn(events[..|events| - 1]) + (if last.Received? && last.message.ResyncRequired? then 1 else 0)
  }

  /** A REMOTE_OP that comes when an earlier version is still missing. */
  predicate IsGap(c: Client, e: Event) {
    e.Received? && e.message.RemoteOp? && e.message.version > c.version + 1
  }

  function GapsSeen(c: Client, events: seq<Event>): nat {
    if events == [] then 0
    else
      var earlier, last := events[..|events| - 1], events[|events| - 1];
      GapsSeen(c, earlier)
      + (if IsGap(Run(c, earlier), last) then 1 else 0)
  }

  lemma PumpAsksNothing(c: Client)
    ensures Requests(Pump(c).outbox) == Requests(c.outbox)
  {
    if Pump(c).outbox != c.outbox {
      assert Pump(c).outbox[..|Pump(c).outbox| - 1] == c.outbox;
    }
  }

  lemma ReactAsks(c: Client, e: Event)
    ensures Requests(React(c, e).outbox) == Requests(c.outbox)
            + (if (e.Received? && e.message.ResyncRequired?) || IsGap(c, e) then 1 else 0)
  {
    assert (c.outbox + [RequestDoc])[..|c.outbox|] == c.outbox;
    match e
    case Typed(op) =>
      PumpAsksNothing(c.(nextOpNumber := c.nextOpNumber + 1,
                         queue := c.queue + [Pending(OpId(c.clientId, c.nextOpNumber), op, -1)]));
    case Received(m) =>
      match m
      case DocState(v, h, t) =>
        PumpAsksNothing(c.(content := if t == None then "" else t.value, version := if v < 0 then 0 else v,
                           historyStartVersion := if h < 0 then 0 else h, inflight := None));
      case Ack(_, _, _, _, v, op, _) => PumpAsksNothing(ApplyAuthoritative(c, op, v).(inflight := None));
      case Welcome(_) =>
      case RemoteOp(_, _, _, _, _) =>
      case ResyncRequired(_, _, _, _) =>
      case Error(_, _) =>
  }

  /** On every run the document is asked for exactly once for each RESYNC_REQUIRED and each version gap. */
  lemma {:induction false} RequestsExact(id: string, events: seq<Event>)
    ensures Requests(Run(NewClient(id), events).outbox) == ResyncsIn(events) + GapsSeen(NewClient(id), events)
  {
    if events != [] {
      var earlier := events[..|events| - 1];
      RequestsExact(id, earlier);
      ReactAsks(Run(NewClient(id), earlier), events[|events| - 1]);
    }
  }

  // ----- What a snapshot, and a message that lacks a field, leave behind -----

  function LastState(events: seq<Event>): Option<ServerMessage> {
    if events == [] then None
    else
      var last := events[|events| - 1];
      if last.Received? && last.message.DocState? then Some(last.message) else LastState(events[..|events| - 1])
  }

  /** The history start is always that of the last snapshot taken; 0 without one, or when it says nothing. */
  lemma {:induction false} HistoryStartTaken(id: string, events: seq<Event>)
    ensures var m, start := LastState(events), Run(NewClient(id), events).historyStartVersion;
            start >= 0 && (m == None ==> start == 0)
            && (m.Some? && m.value.DocState? && m.value.historyStartVersion >= 0 ==>
                  start == m.value.historyStartVersion)
            && (m.Some? && m.value.DocState? && m.value.historyStartVersion < 0 ==> start == 0)
  {
    if events != [] {
      HistoryStartTaken(id, events[..|events| - 1]);
    }
  }

  /** Whatever it was before, a client shows the snapshot it has taken; a text that is not there is empty, and so
      is a version that is not there 0. */
  lemma SnapshotShown(c: Client, version: int, historyStart: int, content: Option<string>)
    ensures var after := Handle(c, DocState(version, historyStart, content));
            && Some(after.content) == (if content == None then Some("") else content)
            && after.version >= 0 && (version >= 0 ==> after.version == version) && (version < 0 ==> after.version == 0)
  {
  }

  /** Without an operation an ACK still frees the client but shows nothing new, and without a version it leaves
      the version alone; a REMOTE_OP without either changes nothing that is shown. */
  lemma IncompleteShowsNothing(c: Client, m: ServerMessage)
    requires c.version >= 0 && (m.Ack? || m.RemoteOp?) && (m.op == None || m.version < 0)
    ensures m.op == None ==> Handle(c, m).content == c.content
    ensures Handle(c, m).version == c.version
    ensures MatchingAck(c, m) && c.queue == [] ==> Handle(c, m).inflight == None
  {
  }

  predicate MatchingAck(c: Client, m: ServerMessage) {
    m.Ack? && c.inflight.Some? && c.inflight.value.opId == m.opId
  }

  // ----- Delivery without any order -----

  /** The server did send `m` at some point while its log was a prefix of d's. */
  ghost predicate Authentic(d: Doc, m: ServerMessage) {
    match m
    case DocState(v, _, content) => 0 <= v <= Version(d) && content == Some(TextOf(d, v))
    case Ack(_, _, _, _, v, op, _) => 1 <= v <= Version(d) && op == Some(d.log[v - 1].op)
    case RemoteOp(_, _, _, v, op) => 1 <= v <= Version(d) && op == Some(d.log[v - 1].op)
    case Welcome(_) => true
    case ResyncRequired(_, _, _, _) => true
    case Error(_, _) => true
  }

  /** The client shows some version the server has reached. */
  ghost predicate Shows(d: Doc, c: Client) {
    0 <= c.version <= Version(d) && c.content == TextOf(d, c.version)
  }

  /** Only an ACK for the operation in flight is taken without looking at its version. */
  predicate Contiguous(c: Client, m: ServerMessage) {
    MatchingAck(c, m) ==> m.version == c.version + 1
  }

  lemma HandleShows(d: Doc, c: Client, m: ServerMessage)
    requires Authentic(d, m) && Contiguous(c, m)
    requires Shows(d, c) || m.DocState?
    ensures Shows(d, Handle(c, m))
  {
    if MatchingAck(c, m) || (m.RemoteOp? && m.version == c.version + 1) {
      assert TextOf(d, m.version) == ApplyOp(TextOf(d, c.version), d.log[c.version].op);
    }
  }

  /** How many operations of a kind came after version u, up to version v. */
  function Between(d: Doc, u: nat, v: nat, kind: OpKind): int
    requires u <= Version(d) && v <= Version(d)
  {
    Count(Ops(d.log), v, kind) - Count(Ops(d.log), u, kind)
  }

  /** What the client does not lose when it applies the operation of version w to version v: the one
      deletion that has nothing to delete there. */
  function Missed(d: Doc, v: nat, w: nat): int
    requires v <= Version(d) && 1 <= w <= Version(d)
  {
    if d.log[w - 1].op.kind == Delete && d.log[w - 1].op.pos >= |TextOf(d, v)| then 1 else 0
  }

  /** How much longer the text of version v becomes by the operation of version w than version w is. */
  lemma LengthOffBy(d: Doc, v: nat, w: nat)
    requires ValidDoc(d) && v < w <= Version(d)
    ensures |ApplyOp(TextOf(d, v), d.log[w - 1].op)| - |TextOf(d, w)|
            == Missed(d, v, w) - (Between(d, v, w - 1, Insert) - Between(d, v, w - 1, Delete))
  {
    var log := Ops(d.log);
    ValidLogEarlier(d.initial, log, v, |log|);
    ValidLogEarlier(d.initial, log, w, |log|);
    LengthConserved(d.initial, log, v);
    LengthConserved(d.initial, log, w - 1);
    assert Fits(log[w - 1], |TextOf(d, w - 1)|) && log[w - 1] == d.log[w - 1].op;
    assert TextOf(d, w) == ApplyOp(TextOf(d, w - 1), log[w - 1]);
  }

  /** An ACK is taken without looking at its version. When it skips versions, and the inserts skipped do not
      balance the deletes skipped, the client is left at the ACK's version with a text that is not that
      version's, whatever the characters are. */
  lemma UnbalancedAckShowsNoVersion(d: Doc, c: Client, m: ServerMessage)
    requires ValidDoc(d) && Authentic(d, m) && Shows(d, c) && MatchingAck(c, m) && c.version < m.version
    ensures Handle(c, m).version == m.version
    ensures Between(d, c.version, m.version - 1, Insert) - Between(d, c.version, m.version - 1, Delete)
              != Missed(d, c.version, m.version)
            ==> !Shows(d, Handle(c, m))
  {
    LengthOffBy(d, c.version, m.version);
  }

  lemma {:induction false} NoopsChangeNothing(d: Doc, u: nat, v: nat)
    requires u <= v <= Version(d) && forall k :: u <= k < v ==> d.log[k].op.kind == Noop
    ensures TextOf(d, v) == TextOf(d, u)
  {
    if u < v {
      NoopsChangeNothing(d, u, v - 1);
    }
  }

  /** Skipping nothing but Noops does no harm. */
  lemma AckOverNoopsShows(d: Doc, c: Client, m: ServerMessage)
    requires Authentic(d, m) && Shows(d, c) && MatchingAck(c, m) && c.version < m.version
    requires forall k :: c.version <= k < m.version - 1 ==> d.log[k].op.kind == Noop
    ensures Shows(d, Handle(c, m))
  {
    NoopsChangeNothing(d, c.version, m.version - 1);
  }

  /** All messages come from d's server, and acknowledgements of the operation in flight come in turn. */
  ghost predicate FromServer(d: Doc, c: Client, events: seq<Event>) {
    events == [] ||
    var earlier, last := events[..|events| - 1], events[|events| - 1];
    && FromServer(d, c, earlier)
    && (last.Received? ==> Authentic(d, last.message) && Contiguous(Run(c, earlier), last.message))
  }

  predicate SeenState(events: seq<Event>) {
    events != [] &&
    var last := events[|events| - 1];
    (last.Received? && last.message.DocState?) || SeenState(events[..|events| - 1])
  }

  /** Consistency under adversarial delivery: messages may be lost, repeated and reordered at will; after
      the first DOC_STATE the client always shows a version the server has reached. */
  lemma {:induction false} AlwaysShowsAVersion(d: Doc, id: string, events: seq<Event>)
    requires FromServer(d, NewClient(id), events) && SeenState(events)
    ensures Shows(d, Run(NewClient(id), events))
  {
    var earlier, last := events[..|events| - 1], events[|events| - 1];
    if SeenState(earlier) {
      AlwaysShowsAVersion(d, id, earlier);
    }
    if last.Received? {
      HandleShows(d, Run(NewClient(id), earlier), last.message);
    }
  }

  /** Messages only, all from d's server. */
  ghost predicate Reading(d: Doc, events: seq<Event>) {
    events == [] ||
    var last := events[|events| - 1];
    Reading(d, events[..|events| - 1]) && last.Received? && Authentic(d, last.message)
  }

  lemma {:induction false} ReadersHaveNothingInFlight(d: Doc, id: string, events: seq<Event>)
    requires Reading(d, events)
    ensures Run(NewClient(id), events).inflight == None && Run(NewClient(id), events).queue == []
    ensures FromServer(d, NewClient(id), events)
  {
    if events != [] {
      ReadersHaveNothingInFlight(d, id, events[..|events| - 1]);
    }
  }

  /** A client that never edits needs no proviso about acknowledgements. */
  lemma ReaderAlwaysShowsAVersion(d: Doc, id: string, events: seq<Event>)
    requires Reading(d, events) && SeenState(events)
    ensures Shows(d, Run(NewClient(id), events))
  {
    ReadersHaveNothingInFlight(d, id, events);
    AlwaysShowsAVersion(d, id, events);
  }

  // ----- Why the proviso is needed -----

  const FIRST := Operation(Insert, 0, "a", "")
  const SECOND := Operation(Insert, 0, "b", "")
  const SECOND_ORDERED := Operation(Insert, 1, "b", "")

  /** A document that took FIRST from u2, then SECOND from u1, both typed into the empty text. */
  function RaceDocument(): Doc {
    Doc("", 10, [HistoryEntry(1, "u2", "u2-1", 0, FIRST, FIRST),
                 HistoryEntry(2, "u1", "u1-1", 0, SECOND, SECOND_ORDERED)])
  }

  lemma RaceIsReal()
    ensures var d1 := Process(Doc("", 10, []), "u2", "u2-1", 0, Some(FIRST)).0;
            Process(d1, "u1", "u1-1", 0, Some(SECOND)).0 == RaceDocument()
  {
    var d1 := Process(Doc("", 10, []), "u2", "u2-1", 0, Some(FIRST)).0;
    assert Ops(d1.log) == [FIRST];
    assert Fold(SECOND, [FIRST], 0, 1) == Transform(Fold(SECOND, [FIRST], 0, 0), FIRST) == SECOND_ORDERED;
    assert TextAt("", [FIRST], 1) == ApplyOp(TextAt("", [FIRST], 0), FIRST) == "a";
  }

  /** Out of turn, it does go wrong: when the ACK of its own insert overtakes the REMOTE_OP of the other
      one, the client ends at the server's version with a text that no version ever had. */
  lemma OvertakingAckDiverges()
    ensures var d := RaceDocument();
            var c := NewClient("u1").(inflight := Some(Pending("u1-1", SECOND, 0)));
            var after := Handle(Handle(c, AckFor(d.log[1])), RemoteFor(d.log[0]));
            && Shows(d, c) && Authentic(d, AckFor(d.log[1])) && Authentic(d, RemoteFor(d.log[0]))
            && after.version == Version(d) && after.content == "b" && Text(d) == "ab" && !Shows(d, after)
  {
    var d := RaceDocument();
    assert Ops(d.log) == [FIRST, SECOND_ORDERED];
    assert TextOf(d, 0) == "" && TextOf(d, 1) == ApplyOp("", FIRST) == "a";
    assert TextOf(d, 2) == ApplyOp("a", SECOND_ORDERED) == "ab";
    assert ApplyOp("", SECOND_ORDERED) == "b";
  }
}
