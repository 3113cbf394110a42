/** What follows when a snapshot makes a client forget its operation in flight: it falls behind until the
    next foreign operation, or it goes on with a text no version ever had. */
module Divergence {
  import opened Operations
  import opened Messages
  import opened Decimals
  import opened Documents
  import opened Clients
  import opened ClientRuns
  import opened Systems
  import opened Convergence
  import opened Replay
  import opened Settling

  // ----- On every run: nothing more to send -----

  /** One request for each operation that is not the next one. */
  function RequestsFor(down: seq<ServerMessage>): seq<ClientMessage> {
    if down == [] then []
    else (if down[0].RemoteOp? then [RequestDoc] else []) + RequestsFor(down[1..])
  }

  lemma AsksOnce(c: Client, m: ServerMessage)
    requires m.Welcome? || (m.RemoteOp? && m.version > c.version + 1)
    ensures Handle(c, m).outbox == c.outbox + (if m.RemoteOp? then [RequestDoc] else [])
    ensures Handle(c, m).version == c.version
  {
  }

  lemma {:induction false} AsksWhenBehind(d: Doc, c: Client, from: int, down: seq<ServerMessage>)
    requires Leads(d, Some(from), down) && c.version < from
    requires forall k :: 0 <= k < |down| ==> !down[k].DocState? && !IsReply(down[k])
    ensures Drain(c, down).outbox == c.outbox + RequestsFor(down)
    decreases down
  {
    if down != [] {
      var m, rest := down[0], down[1..];
      assert forall k :: 0 <= k < |rest| ==> rest[k] == down[k + 1];
      AsksOnce(c, m);
      AsksWhenBehind(d, Handle(c, m), if m.RemoteOp? then from + 1 else from, rest);
      AppendTwice(c.outbox, if m.RemoteOp? then [RequestDoc] else [], RequestsFor(rest));
    }
  }

  lemma AppendTwice<A>(a: seq<A>, b: seq<A>, c: seq<A>)
    ensures a + b + c == a + (b + c)
  {
  }

  /** Before the ACK that is missed nothing is asked for; after it, every operation is a gap. */
  lemma {:induction false} AsksAfterMissed(d: Doc, c: Client, from: Option<int>, down: seq<ServerMessage>, k: nat)
    requires Leads(d, from, down) && (from.Some? ==> from.value == c.version && Shows(d, c))
    requires k < |down| && down[k].Ack? && c.queue == []
    requires forall i :: 0 <= i < |down| && i != k ==> !IsReply(down[i])
    requires forall i :: k < i < |down| ==> !down[i].DocState?
    requires c.inflight == None || exists j :: 0 <= j < k && down[j].DocState?
    ensures Drain(c, down).outbox == c.outbox + RequestsFor(down[k + 1..])
    decreases down
  {
    var m, rest := down[0], down[1..];
    assert forall i :: 0 <= i < |rest| ==> rest[i] == down[i + 1];
    if k == 0 {
      assert Handle(c, m) == c && down[1..] == rest;
      AsksWhenBehind(d, c, c.version + 1, rest);
    } else {
      if m.RemoteOp? {
        AppliesNextEntry(d, c, m);
      }
      if !m.DocState? && c.inflight.Some? {
        var j :| 0 <= j < k && down[j].DocState?;
        assert rest[j - 1].DocState?;
      }
      var next := if m.DocState? then Some(m.version) else if m.RemoteOp? then Some(from.value + 1) else from;
      AsksAfterMissed(d, Handle(c, m), next, rest, k - 1);
      assert rest[k..] == down[k + 1..];
    }
  }

  /** A client with nothing queued that is going to forget its operation in flight falls behind, and asks for
      the document once for every REMOTE_OP behind the ACK it misses. */
  lemma ForgottenFallsBehind(d: Doc, slot: Slot, k: nat)
    requires SlotInv(d, slot) && Doomed(slot) && slot.client.queue == [] && k < |slot.down| && slot.down[k].Ack?
    ensures var end := Drain(slot.client, slot.down);
            && end.version < Version(d)
            && end.outbox == slot.client.outbox + RequestsFor(slot.down[k + 1..])
  {
    DrainExact(d, slot);
    AckIsTheReply(slot, k);
    var j, a :| 0 <= j < a < |slot.down| && slot.down[j].DocState? && slot.down[a].Ack?;
    assert a == k;
    AsksAfterMissed(d, slot.client, Position(slot), slot.down, k);
  }

  // ----- On every run: a later operation is acknowledged -----

  /** An insert, and the deletion of the last character behind it, leave the text as it was iff all that the
      insert moved was the inserted character again. */
  lemma PushedOut(t: string, p: nat, x: char)
    requires p <= |t|
    ensures (t[..p] + [x] + t[p..])[..|t|] == t <==> forall j :: p <= j < |t| ==> t[j] == x
  {
    var more := t[..p] + [x] + t[p..];
    if more[..|t|] == t {
      AllTheSame(t, p, x, |t|);
    }
  }

  lemma {:induction false} AllTheSame(t: string, p: nat, x: char, n: nat)
    requires p <= n <= |t| && (t[..p] + [x] + t[p..])[..|t|] == t
    ensures forall j :: p <= j < n ==> t[j] == x
  {
    if p < n {
      AllTheSame(t, p, x, n - 1);
      var more := t[..p] + [x] + t[p..];
      assert t[n - 1] == more[..|t|][n - 1] == more[n - 1];
      assert more[n - 1] == if n - 1 == p then x else t[n - 2];
    }
  }

  lemma InsertThenMissed(d: Doc, v: nat)
    requires ValidDoc(d) && v + 2 <= Version(d) && d.log[v].op.kind == Insert && Missed(d, v, v + 2) == 1
    ensures d.log[v].op.pos <= |TextOf(d, v)| && |d.log[v].op.ch| == 1
    ensures TextOf(d, v + 2) == TextOf(d, v) <==>
            forall j :: d.log[v].op.pos <= j < |TextOf(d, v)| ==> TextOf(d, v)[j] == d.log[v].op.ch[0]
  {
    var ops, t, op := Ops(d.log), TextOf(d, v), d.log[v].op;
    ValidLogEarlier(d.initial, ops, v + 2, |ops|);
    ValidLogEarlier(d.initial, ops, v + 1, |ops|);
    assert ops[v] == op && ops[v + 1] == d.log[v + 1].op;
    var more := t[..op.pos] + op.ch + t[op.pos..];
    assert op.ch == [op.ch[0]];
    assert TextOf(d, v + 1) == ApplyOp(t, op) == more;
    assert TextOf(d, v + 2) == ApplyOp(more, ops[v + 1]) == more[..|t|];
    PushedOut(t, op.pos, op.ch[0]);
  }

  /** What was forgotten does no harm: it was recorded as a Noop; or it inserted a character that the next
      operation pushes out at the end, through nothing but copies of itself. */
  ghost predicate ForgottenHarmlessly(d: Doc, v: nat)
    requires v + 2 <= Version(d)
  {
    var op := d.log[v].op;
    || op.kind == Noop
    || (op.kind == Insert && Missed(d, v, v + 2) == 1
        && forall j :: op.pos <= j < |TextOf(d, v)| ==> [TextOf(d, v)[j]] == op.ch)
  }

  /** The ACK of a forgotten operation is ignored; when that of the next version is taken, the client is at the
      server's version, and shows it exactly when what was forgotten does no harm. */
  lemma ForgottenThenAcknowledged(d: Doc, c: Client, lost: ServerMessage, taken: ServerMessage)
    requires ValidDoc(d) && Authentic(d, lost) && Authentic(d, taken) && Shows(d, c)
    requires lost.Ack? && !MatchingAck(c, lost) && MatchingAck(c, taken)
    requires lost.version == c.version + 1 && taken.version == c.version + 2
    ensures var after := Handle(Handle(c, lost), taken);
            after.version == c.version + 2 && (Shows(d, after) <==> ForgottenHarmlessly(d, c.version))
  {
    var v, kind := c.version, d.log[c.version].op.kind;
    assert Handle(c, lost) == c;
    assert Between(d, v, v + 1, Insert) == (if kind == Insert then 1 else 0);
    assert Between(d, v, v + 1, Delete) == (if kind == Delete then 1 else 0);
    UnbalancedAckShowsNoVersion(d, c, taken);
    ValidLogEarlier(d.initial, Ops(d.log), v + 1, Version(d));
    assert Ops(d.log)[v] == d.log[v].op;
    if kind == Noop {
      AckOverNoopsShows(d, c, taken);
    } else if kind == Insert && Missed(d, v, v + 2) == 1 {
      InsertThenMissed(d, v);
      assert Handle(c, taken).content == ApplyOp(c.content, d.log[v + 1].op) == c.content;
    }
  }

  // ----- One edit before the snapshot -----

  const EAGER := Operation(Insert, 0, "x", "")
  const EAGER_EDIT := Pending("u1-1", EAGER, 0)
  const SENT := [SubmitOp("u1", "u1-1", 0, Some(EAGER))]
  const LOGGED := HistoryEntry(1, "u1", "u1-1", 0, EAGER, EAGER)

  /** A user who types before the join snapshot has arrived. */
  const EAGER_RUN: seq<Step> := [Join("u1"), TypeOp(0, EAGER), Deliver(0), Deliver(0), Serve(0), Deliver(0)]

  lemma EagerTyping() returns (s: System)
    ensures IsRun(Start("", 10), EAGER_RUN[..2]) && s == After(Start("", 10), EAGER_RUN[..2])
    ensures s.doc == Doc("", 10, []) && |s.slots| == 1
    ensures var slot := s.slots[0];
            && slot.id == "u1" && slot.served == 0
            && slot.down == [Welcome("u1"), DocState(0, 0, Some(""))]
            && slot.client == NewClient("u1").(nextOpNumber := 2, inflight := Some(EAGER_EDIT), outbox := SENT)
  {
    var s0 := Start("", 10);
    var s1 := Perform(s0, EAGER_RUN[0]);
    assert "u1" !in IdsOf(s0.slots);
    assert ChooseId(IdsOf(s0.slots), "u1", 1) == ("u1", 1);
    assert s1.slots == [Newcomer(s0.doc, "u1", "u1")];
    s := Perform(s1, EAGER_RUN[1]);
    assert OpId("u1", 1) == "u1-1" by {
      assert Decimal(1) == ['1'];
    }
    var rest := EAGER_RUN[..2][1..];
    assert rest == [EAGER_RUN[1]] && rest[1..] == [];
    assert After(s1, rest) == s;
  }

  lemma EagerForgets(s: System) returns (t: System)
    requires s.doc == Doc("", 10, []) && |s.slots| == 1
    requires var slot := s.slots[0];
             && slot.id == "u1" && slot.served == 0
             && slot.down == [Welcome("u1"), DocState(0, 0, Some(""))]
             && slot.client == NewClient("u1").(nextOpNumber := 2, inflight := Some(EAGER_EDIT), outbox := SENT)
    ensures IsRun(s, [Deliver(0), Deliver(0)]) && t == After(s, [Deliver(0), Deliver(0)])
    ensures ForgetsInFlight(Perform(s, Deliver(0)), Deliver(0))
    ensures t.doc == s.doc && |t.slots| == 1
    ensures var slot := t.slots[0];
            && slot.id == "u1" && slot.served == 0 && slot.down == []
            && slot.client == NewClient("u1").(nextOpNumber := 2, outbox := SENT)
  {
    var two: seq<Step> := [Deliver(0), Deliver(0)];
    var s1 := Perform(s, Deliver(0));
    assert s1.slots[0].down == [DocState(0, 0, Some(""))];
    t := Perform(s1, Deliver(0));
    assert two[1..] == [Deliver(0)] && two[1..][1..] == [];
    assert After(s1, two[1..]) == t;
  }

  lemma EagerLoses(s: System) returns (t: System)
    requires s.doc == Doc("", 10, []) && |s.slots| == 1
    requires var slot := s.slots[0];
             && slot.id == "u1" && slot.served == 0 && slot.down == []
             && slot.client == NewClient("u1").(nextOpNumber := 2, outbox := SENT)
    ensures IsRun(s, [Serve(0), Deliver(0)]) && t == After(s, [Serve(0), Deliver(0)])
    ensures Quiet(t) && |t.slots| == 1 && Text(t.doc) == "x" && Version(t.doc) == 1
    ensures var c := t.slots[0].client; c.content == "" && c.version == 0 && c.inflight == None && c.queue == []
  {
    var two: seq<Step> := [Serve(0), Deliver(0)];
    var d := Doc("", 10, [LOGGED]);
    EagerIsLogged();
    var s1 := Perform(s, Serve(0));
    assert s1.doc == d && s1.slots[0].down == [AckFor(LOGGED)];
    t := Perform(s1, Deliver(0));
    assert two[1..] == [Deliver(0)] && two[1..][1..] == [];
    assert After(s1, two[1..]) == t;
    assert Ops(d.log) == [EAGER] && TextAt("", [EAGER], 1) == ApplyOp(TextAt("", [EAGER], 0), EAGER) == "x";
  }

  lemma EagerIsLogged()
    ensures Process(Doc("", 10, []), "u1", "u1-1", 0, Some(EAGER)).0 == Doc("", 10, [LOGGED])
    ensures Process(Doc("", 10, []), "u1", "u1-1", 0, Some(EAGER)).1.Processed?
    ensures Process(Doc("", 10, []), "u1", "u1-1", 0, Some(EAGER)).1.ack == AckFor(LOGGED)
  {
  }

  /** The snapshot makes the client forget its edit; the server applies the edit all the same; the ACK is
      ignored as stale. Everything is quiet, and the only user looks at a text without the edit. */
  lemma EagerRunDiverges()
    ensures IsRun(Start("", 10), EAGER_RUN)
    ensures var s := After(Start("", 10), EAGER_RUN);
            && Quiet(s) && |s.slots| == 1
            && Text(s.doc) == "x" && s.slots[0].client.content == "" && s.slots[0].client.version < Version(s.doc)
  {
    var s0 := Start("", 10);
    var s2 := EagerTyping();
    var s4 := EagerForgets(s2);
    var s6 := EagerLoses(s4);
    RunsConcatenate(s2, [Deliver(0), Deliver(0)], [Serve(0), Deliver(0)]);
    RunsConcatenate(s0, EAGER_RUN[..2], [Deliver(0), Deliver(0)] + [Serve(0), Deliver(0)]);
    assert EAGER_RUN == EAGER_RUN[..2] + ([Deliver(0), Deliver(0)] + [Serve(0), Deliver(0)]);
  }

  // ----- Two edits before the snapshot -----

  const X := Operation(Insert, 0, "x", "")
  const Y := Operation(Insert, 1, "y", "")
  const TYPES_XY: seq<Step> := [Join("u1"), TypeOp(0, X), TypeOp(0, Y)]
  const SNAPSHOT: seq<Step> := [Deliver(0), Deliver(0)]
  const SERVES_XY: seq<Step> := [Serve(0), Serve(0)]
  const ACKS_XY: seq<Step> := [Deliver(0), Deliver(0)]

  function IdX(): string { OpId("u1", 1) }

  function IdY(): string { OpId("u1", 2) }

  function LoggedX(): HistoryEntry { HistoryEntry(1, "u1", IdX(), 0, X, X) }

  function LoggedY(): HistoryEntry { HistoryEntry(2, "u1", IdY(), 0, Y, Y) }

  /** The only client, with both edits sent. */
  function BothSent(): Client {
    NewClient("u1").(nextOpNumber := 3, inflight := Some(Pending(IdY(), Y, 0)),
                     outbox := [SubmitOp("u1", IdX(), 0, Some(X)), SubmitOp("u1", IdY(), 0, Some(Y))])
  }

  /** A system with that one connection. */
  predicate Alone(s: System, d: Doc, c: Client, served: nat, down: seq<ServerMessage>) {
    s.doc == d && |s.slots| == 1 && s.slots[0].id == "u1" && s.slots[0].client == c
    && s.slots[0].served == served && s.slots[0].down == down
  }

  lemma TypesBoth() returns (s: System)
    ensures IsRun(Start("", 10), TYPES_XY) && s == After(Start("", 10), TYPES_XY)
    ensures var d := Doc("", 10, []);
            Alone(s, d, NewClient("u1").(nextOpNumber := 3, inflight := Some(Pending(IdX(), X, 0)),
                                         queue := [Pending(IdY(), Y, -1)],
                                         outbox := [SubmitOp("u1", IdX(), 0, Some(X))]),
                  0, [Welcome("u1"), DocState(0, 0, Some(""))])
  {
    var s0 := Start("", 10);
    assert "u1" !in IdsOf(s0.slots);
    var s1 := Perform(s0, Join("u1"));
    assert s1.slots == [Newcomer(s0.doc, "u1", "u1")];
    ThreeSteps(s0, Join("u1"), TypeOp(0, X), TypeOp(0, Y));
    s := After(s0, TYPES_XY);
    assert s.slots == [TypeInto(TypeInto(Newcomer(s0.doc, "u1", "u1"), X), Y)];
  }

  lemma SnapshotComes(s: System) returns (t: System)
    requires var d := Doc("", 10, []);
             Alone(s, d, NewClient("u1").(nextOpNumber := 3, inflight := Some(Pending(IdX(), X, 0)),
                                          queue := [Pending(IdY(), Y, -1)],
                                          outbox := [SubmitOp("u1", IdX(), 0, Some(X))]),
                   0, [Welcome("u1"), DocState(0, 0, Some(""))])
    ensures IsRun(s, SNAPSHOT) && t == After(s, SNAPSHOT) && Alone(t, Doc("", 10, []), BothSent(), 0, [])
  {
    TwoSteps(s, Deliver(0), Deliver(0));
    t := After(s, SNAPSHOT);
  }

  lemma XIsLogged()
    ensures Process(Doc("", 10, []), "u1", IdX(), 0, Some(X))
            == (Doc("", 10, [LoggedX()]), Processed(AckFor(LoggedX()), RemoteFor(LoggedX()), "x", 1))
  {
    var none: seq<HistoryEntry> := [];
    assert Ops(none) == [] && Ordered("", [], 0, X) == X && none + [LoggedX()] == [LoggedX()];
    assert Ops([LoggedX()]) == [X] && TextAt("", [X], 1) == ApplyOp(TextAt("", [X], 0), X) == "x";
  }

  lemma YIsLogged()
    ensures Process(Doc("", 10, [LoggedX()]), "u1", IdY(), 0, Some(Y))
            == (Doc("", 10, [LoggedX(), LoggedY()]), Processed(AckFor(LoggedY()), RemoteFor(LoggedY()), "xy", 2))
    ensures Text(Doc("", 10, [LoggedX(), LoggedY()])) == "xy"
  {
    var d := Doc("", 10, [LoggedX()]);
    assert Ops(d.log) == [X] && TextAt("", [X], 1) == ApplyOp(TextAt("", [X], 0), X) == "x";
    assert Fold(Y, [X], 0, 1) == Transform(Fold(Y, [X], 0, 0), X) == Y.(pos := 2);
    var e := Doc("", 10, [LoggedX(), LoggedY()]);
    assert [LoggedX()] + [LoggedY()] == e.log && Ops(e.log) == [X, Y];
    TextAtPrefix("", [X], [X, Y], 1);
    assert TextAt("", [X, Y], 2) == ApplyOp("x", Y) == "xy";
  }

  lemma BothServed(s: System) returns (t: System)
    requires Alone(s, Doc("", 10, []), BothSent(), 0, [])
    ensures IsRun(s, SERVES_XY) && t == After(s, SERVES_XY)
    ensures Alone(t, Doc("", 10, [LoggedX(), LoggedY()]), BothSent(), 2, [AckFor(LoggedX()), AckFor(LoggedY())])
  {
    XIsLogged();
    YIsLogged();
    var s1 := Perform(s, Serve(0));
    assert Alone(s1, Doc("", 10, [LoggedX()]), BothSent(), 1, [AckFor(LoggedX())]);
    TwoSteps(s, Serve(0), Serve(0));
    t := After(s, SERVES_XY);
    assert t.slots[0].down == [AckFor(LoggedX())] + [AckFor(LoggedY())];
  }

  lemma BothAcknowledged(s: System) returns (t: System)
    requires Alone(s, Doc("", 10, [LoggedX(), LoggedY()]), BothSent(), 2, [AckFor(LoggedX()), AckFor(LoggedY())])
    ensures IsRun(s, ACKS_XY) && t == After(s, ACKS_XY)
    ensures Alone(t, s.doc, BothSent().(inflight := None, content := "y", version := 2), 2, [])
  {
    if IdX() == IdY() {
      OpIdNumber("u1", 1, "u1", 2);
    }
    var s1 := Perform(s, Deliver(0));
    assert Alone(s1, s.doc, BothSent(), 2, [AckFor(LoggedY())]);
    assert ApplyOp("", Y) == "y";
    TwoSteps(s, Deliver(0), Deliver(0));
    t := After(s, ACKS_XY);
  }

  /** No race is needed for a wrong text: a user types two characters before the join snapshot has arrived.
      The snapshot forgets the first, both are served, both ACKs come in order; all is quiet, client and
      server are at version 2, and the client shows "y" where the server has "xy". */
  lemma TwoEagerEditsDiverge()
    ensures var run := TYPES_XY + SNAPSHOT + SERVES_XY + ACKS_XY;
            && IsRun(Start("", 10), run)
            && var s := After(Start("", 10), run);
               && Quiet(s) && |s.slots| == 1 && Text(s.doc) == "xy"
               && s.slots[0].client.version == Version(s.doc) == 2 && s.slots[0].client.content == "y"
               && s.slots[0].client.inflight == None && s.slots[0].client.queue == []
  {
    var s0 := Start("", 10);
    var s3 := TypesBoth();
    var s5 := SnapshotComes(s3);
    var s7 := BothServed(s5);
    var s9 := BothAcknowledged(s7);
    RunsConcatenate(s0, TYPES_XY, SNAPSHOT);
    RunsConcatenate(s0, TYPES_XY + SNAPSHOT, SERVES_XY);
    RunsConcatenate(s0, TYPES_XY + SNAPSHOT + SERVES_XY, ACKS_XY);
    YIsLogged();
  }
}
