/** The whole system: one server, any number of clients that come and go, and one FIFO stream in each
    direction per connection. One step is one atomic action of server.c or of a client. */
module Systems {
  import opened Operations
  import opened Messages
  import opened Decimals
  import opened Documents
  import opened Clients
  import opened ClientRuns

  /** A connection. The uplink is what the client has sent and the server has not yet served; `events`,
      `received`, `synced` and `joinedAt` only record what has happened. */
  datatype Slot = Slot(
    id: string, requested: string, client: Client, served: nat, down: seq<ServerMessage>,
    joinedAt: nat, synced: bool, received: seq<int>, events: seq<Event>)

  datatype System = System(doc: Doc, slots: seq<Slot>, nextClientNumber: nat)

  /** Join: choose an id, register, send WELCOME and the snapshot. TypeOp: the user of a client edits.
      Serve: the server takes the next message of an uplink. Deliver: a client takes the next message of
      its downlink. Leave: the connection is dropped. */
  datatype Step =
    | Join(requested: string)
    | Leave(i: nat)
    | TypeOp(i: nat, op: Operation)
    | Serve(i: nat)
    | Deliver(i: nat)

  // ----- Client ids -----

  function AutoName(k: nat): string {
    "u" + Decimal(k)
  }

  lemma AutoNameInjective(j: nat, k: nat)
    requires AutoName(j) == AutoName(k)
    ensures j == k
  {
    assert AutoName(j)[1..] == Decimal(j) && AutoName(k)[1..] == Decimal(k);
    DecimalInjective(j, k);
  }

  /** The registered ids that automatic numbering from k on could still run into. */
  ghost function InTheWay(ids: set<string>, k: nat): set<string> {
    set id | id in ids && exists j: nat :: k <= j && id == AutoName(j)
  }

  lemma InTheWayShrinks(ids: set<string>, k: nat)
    requires AutoName(k) in ids
    ensures InTheWay(ids, k + 1) < InTheWay(ids, k)
  {
    assert AutoName(k) in InTheWay(ids, k);
    if AutoName(k) in InTheWay(ids, k + 1) {
      var j: nat :| k + 1 <= j && AutoName(k) == AutoName(j);
      AutoNameInjective(j, k);
    }
  }

  /** The first number from k on whose name is free; the search ends because each name passed over is
      one registered name fewer in the way. */
  function FreeNumber(ids: set<string>, k: nat): (n: nat)
    ensures k <= n && AutoName(n) !in ids
    ensures forall j :: k <= j < n ==> AutoName(j) in ids
    decreases InTheWay(ids, k)
  {
    if AutoName(k) !in ids then k
    else
      InTheWayShrinks(ids, k);
      FreeNumber(ids, k + 1)
  }

  function Automatic(ids: set<string>, next: nat): (r: (string, nat))
    ensures r.0 !in ids && r.0 != "" && next < r.1
  {
    (AutoName(FreeNumber(ids, next)), FreeNumber(ids, next) + 1)
  }

  /** The id given to a newcomer, and the next automatic number. */
  function ChooseId(ids: set<string>, requested: string, next: nat): (r: (string, nat))
    ensures r.0 !in ids && r.0 != "" && next <= r.1
  {
    if requested != "" && requested !in ids then (requested, next) else Automatic(ids, next)
  }

  /** No number is skipped: the counter passes over names in use and the name given, and over nothing when the
      requested name is given. */
  lemma NoNumberSkipped(ids: set<string>, requested: string, next: nat, j: nat)
    requires next <= j < ChooseId(ids, requested, next).1
    ensures AutoName(j) in ids + {ChooseId(ids, requested, next).0}
    ensures requested == "" || requested in ids
  {
  }

  /** The server starts with nobody connected, at version 0, and with a history of 1000 unless told otherwise. */
  lemma StartsEmpty(initial: string, limit: nat)
    ensures var s := Start(initial, limit);
            && s.slots == [] && Version(s.doc) == 0 && Text(s.doc) == initial
            && s.doc.limit == (if limit > 0 then limit else 1000)
  {
  }

  /** The first two who ask for no name are u1 and u2. */
  lemma FirstNames()
    ensures Start("", 0).nextClientNumber == 1
    ensures ChooseId({}, "", 1) == ("u1", 2) && ChooseId({"u1"}, "", 2) == ("u2", 3)
  {
    assert Decimal(1) == "1" && Decimal(2) == "2";
    assert AutoName(1) == "u1" && AutoName(2) == "u2";
  }

  function IdsOf(slots: seq<Slot>): set<string> {
    set k | 0 <= k < |slots| :: slots[k].id
  }

  // ----- Steps -----

  function Uplink(slot: Slot): seq<ClientMessage>
    requires slot.served <= |slot.client.outbox|
  {
    slot.client.outbox[slot.served..]
  }

  function Push(slot: Slot, messages: seq<ServerMessage>): Slot {
    slot.(down := slot.down + messages)
  }

  /** Sends `message` to every connection but `excluded`. */
  function Broadcast(slots: seq<Slot>, message: ServerMessage, excluded: string): seq<Slot> {
    seq(|slots|, k requires 0 <= k < |slots| =>
      if slots[k].id == excluded then slots[k] else Push(slots[k], [message]))
  }

  predicate CanServe(slot: Slot) {
    slot.served < |slot.client.outbox|
  }

  predicate CanDeliver(slot: Slot) {
    slot.down != []
  }

  predicate Enabled(s: System, step: Step) {
    match step
    case Join(_) => true
    case Leave(i) => i < |s.slots|
    case TypeOp(i, _) => i < |s.slots|
    case Serve(i) => i < |s.slots| && CanServe(s.slots[i])
    case Deliver(i) => i < |s.slots| && CanDeliver(s.slots[i])
  }

  function Newcomer(d: Doc, id: string, requested: string): Slot {
    Slot(id, requested, NewClient(requested), 0, [Welcome(id), StateMessage(d)], Version(d), false, [], [])
  }

  function TypeInto(slot: Slot, op: Operation): Slot {
    slot.(client := QueueOperation(slot.client, op), events := slot.events + [Typed(op)])
  }

  function DeliverTo(slot: Slot): Slot
    requires CanDeliver(slot)
  {
    var m := slot.down[0];
    slot.(client := Handle(slot.client, m), down := slot.down[1..], synced := slot.synced || m.DocState?,
          received := if m.Ack? || m.RemoteOp? then slot.received + [m.version] else slot.received,
          events := slot.events + [Received(m)])
  }

  /** What the server sends once it has processed an operation of connection i, whose slot is `slot` now. */
  function Answer(s: System, i: nat, slot: Slot, doc: Doc, result: ProcessResult): System
    requires i < |s.slots|
  {
    match result
    case Refused(error) => s.(slots := s.slots[i := Push(slot, [error])])
    case Resync(required, state) => s.(slots := s.slots[i := Push(slot, [required, state])])
    case Processed(ack, remote, _, _) =>
      s.(doc := doc, slots := Broadcast(s.slots[i := Push(slot, [ack])], remote, slot.id))
  }

  function Served(slot: Slot): Slot {
    slot.(served := slot.served + 1)
  }

  function ServeSlot(s: System, i: nat): System
    requires i < |s.slots| && CanServe(s.slots[i])
  {
    var slot := Served(s.slots[i]);
    match s.slots[i].client.outbox[s.slots[i].served]
    case RequestDoc => s.(slots := s.slots[i := Push(slot, [StateMessage(s.doc)])])
    case SubmitOp(_, opId, base, op) =>
      var (doc, result) := Process(s.doc, slot.id, opId, base, op);
      Answer(s, i, slot, doc, result)
  }

  function Perform(s: System, step: Step): System
    requires Enabled(s, step)
  {
    match step
    case Join(requested) =>
      var (id, next) := ChooseId(IdsOf(s.slots), requested, s.nextClientNumber);
      s.(slots := [Newcomer(s.doc, id, requested)] + s.slots, nextClientNumber := next)
    case Leave(i) => s.(slots := s.slots[..i] + s.slots[i + 1..])
    case TypeOp(i, op) => s.(slots := s.slots[i := TypeInto(s.slots[i], op)])
    case Deliver(i) => s.(slots := s.slots[i := DeliverTo(s.slots[i])])
    case Serve(i) => ServeSlot(s, i)
  }

  function Start(initial: string, limit: nat): System {
    System(Doc(initial, if limit == 0 then DEFAULT_HISTORY_LIMIT else limit, []), [], 1)
  }

  predicate IsRun(s: System, steps: seq<Step>)
    decreases steps
  {
    steps == [] || (Enabled(s, steps[0]) && IsRun(Perform(s, steps[0]), steps[1..]))
  }

  function After(s: System, steps: seq<Step>): System
    requires IsRun(s, steps)
    decreases steps
  {
    if steps == [] then s else After(Perform(s, steps[0]), steps[1..])
  }

  /** The one thing that can go wrong: a DOC_STATE taken while an operation is in flight forgets it, so
      that its ACK will be ignored. */
  predicate ForgetsInFlight(s: System, step: Step)
    requires Enabled(s, step)
  {
    step.Deliver? && s.slots[step.i].down[0].DocState? && s.slots[step.i].client.inflight.Some?
  }

  predicate GoodRun(s: System, steps: seq<Step>)
    decreases steps
  {
    steps == [] ||
    (Enabled(s, steps[0]) && !ForgetsInFlight(s, steps[0]) && GoodRun(Perform(s, steps[0]), steps[1..]))
  }

  // ----- Putting runs together -----

  lemma {:induction false} RunsConcatenate(s: System, a: seq<Step>, b: seq<Step>)
    requires IsRun(s, a) && IsRun(After(s, a), b)
    ensures IsRun(s, a + b) && After(s, a + b) == After(After(s, a), b)
    decreases a
  {
    if a == [] {
      assert a + b == b;
    } else {
      StepsSplit(a, b);
      RunsConcatenate(Perform(s, a[0]), a[1..], b);
    }
  }

  lemma StepsSplit(a: seq<Step>, b: seq<Step>)
    requires a != []
    ensures a + b != [] && (a + b)[0] == a[0] && (a + b)[1..] == a[1..] + b
  {
  }

  lemma TwoSteps(s: System, a: Step, b: Step)
    requires Enabled(s, a) && Enabled(Perform(s, a), b)
    ensures IsRun(s, [a, b]) && After(s, [a, b]) == Perform(Perform(s, a), b)
  {
    var two := [a, b];
    assert two[1..] == [b] && [b][1..] == [];
    assert After(Perform(s, a), [b]) == After(Perform(Perform(s, a), b), []);
  }

  lemma ThreeSteps(s: System, a: Step, b: Step, c: Step)
    requires Enabled(s, a) && Enabled(Perform(s, a), b) && Enabled(Perform(Perform(s, a), b), c)
    ensures IsRun(s, [a, b, c]) && After(s, [a, b, c]) == Perform(Perform(Perform(s, a), b), c)
  {
    var three := [a, b, c];
    TwoSteps(Perform(s, a), b, c);
    assert three[1..] == [b, c];
  }
}
