/** The system settles once typing stops, and when it has settled everybody sees the same text. */
module Settling {
  import opened Operations
  import opened Messages
  import opened Documents
  import opened Clients
  import opened Systems
  import opened Convergence

  // ----- A measure that every step without the user lowers -----

  function SubmitWeight(n: nat): nat {
    3 * n + 6
  }

  function UpWeight(n: nat, up: seq<ClientMessage>): nat {
    if up == [] then 0 else UpWeight(n, up[..|up| - 1]) + (if up[|up| - 1].SubmitOp? then SubmitWeight(n) else 2)
  }

  function MessageWeight(m: ServerMessage): nat {
    if m.RemoteOp? || m.ResyncRequired? then 3 else 1
  }

  function DownWeight(down: seq<ServerMessage>): nat {
    if down == [] then 0 else MessageWeight(down[0]) + DownWeight(down[1..])
  }

  /** Unsent edits and unserved operations weigh as much as all the messages they can still cause. */
  function SlotWeight(n: nat, slot: Slot): nat
    requires slot.served <= |slot.client.outbox|
  {
    SubmitWeight(n) * |slot.client.queue| + UpWeight(n, Uplink(slot)) + DownWeight(slot.down)
  }

  predicate Sane(slots: seq<Slot>) {
    forall k :: 0 <= k < |slots| ==> slots[k].served <= |slots[k].client.outbox|
  }

  function TotalWeight(n: nat, slots: seq<Slot>): nat
    requires Sane(slots)
  {
    if slots == [] then 0 else SlotWeight(n, slots[0]) + TotalWeight(n, slots[1..])
  }

  function Measure(s: System): nat
    requires Sane(s.slots)
  {
    |s.slots| + TotalWeight(|s.slots|, s.slots)
  }

  lemma {:induction false} UpWeightSplit(n: nat, up: seq<ClientMessage>)
    requires up != []
    ensures UpWeight(n, up) == (if up[0].SubmitOp? then SubmitWeight(n) else 2) + UpWeight(n, up[1..])
  {
    if |up| == 1 {
      assert up[..0] == up[1..] == [];
    } else {
      UpWeightSplit(n, up[..|up| - 1]);
      assert up[1..][..|up| - 2] == up[..|up| - 1][1..];
    }
  }

  lemma {:induction false} DownWeightAppend(a: seq<ServerMessage>, b: seq<ServerMessage>)
    ensures DownWeight(a + b) == DownWeight(a) + DownWeight(b)
  {
    if a == [] {
      assert a + b == b;
    } else {
      DownWeightAppend(a[1..], b);
      assert (a + b)[0] == a[0] && (a + b)[1..] == a[1..] + b;
    }
  }

  lemma {:induction false} TotalWeightReplace(n: nat, slots: seq<Slot>, i: nat, slot: Slot)
    requires Sane(slots) && i < |slots| && slot.served <= |slot.client.outbox|
    ensures Sane(slots[i := slot])
    ensures TotalWeight(n, slots[i := slot]) == TotalWeight(n, slots) - SlotWeight(n, slots[i]) + SlotWeight(n, slot)
  {
    if i == 0 {
      assert slots[i := slot][1..] == slots[1..];
    } else {
      TotalWeightReplace(n, slots[1..], i - 1, slot);
      assert slots[i := slot][1..] == slots[1..][i - 1 := slot];
    }
  }

  lemma {:induction false} BroadcastWeight(n: nat, slots: seq<Slot>, m: ServerMessage, excluded: string)
    requires Sane(slots) && m.RemoteOp?
    ensures Sane(Broadcast(slots, m, excluded))
    ensures TotalWeight(n, Broadcast(slots, m, excluded)) <= TotalWeight(n, slots) + 3 * |slots|
  {
    if slots != [] {
      BroadcastWeight(n, slots[1..], m, excluded);
      assert Broadcast(slots, m, excluded)[1..] == Broadcast(slots[1..], m, excluded);
      DownWeightAppend(slots[0].down, [m]);
      assert Uplink(Push(slots[0], [m])) == Uplink(slots[0]);
    }
  }

  /** Pumping moves an edit from the queue to the uplink, which weighs the same. */
  lemma PumpWeight(n: nat, c: Client, served: nat)
    requires served <= |c.outbox|
    ensures var d := Pump(c);
            && served <= |d.outbox|
            && SubmitWeight(n) * |d.queue| + UpWeight(n, d.outbox[served..])
               == SubmitWeight(n) * |c.queue| + UpWeight(n, c.outbox[served..])
  {
    var d := Pump(c);
    if d != c {
      var up := d.outbox[served..];
      assert up[..|up| - 1] == c.outbox[served..];
      assert SubmitWeight(n) * |c.queue| == SubmitWeight(n) * |d.queue| + SubmitWeight(n);
    }
  }

  lemma DeliverWeight(n: nat, slot: Slot)
    requires slot.served <= |slot.client.outbox| && CanDeliver(slot)
    ensures DeliverTo(slot).served <= |DeliverTo(slot).client.outbox|
    ensures SlotWeight(n, DeliverTo(slot)) < SlotWeight(n, slot)
  {
    var c, m := slot.client, slot.down[0];
    match m
    case DocState(v, h, t) =>
      PumpWeight(n, c.(content := if t == None then "" else t.value, version := if v < 0 then 0 else v,
                       historyStartVersion := if h < 0 then 0 else h, inflight := None), slot.served);
    case Ack(_, opId, _, _, v, op, _) =>
      PumpWeight(n, ApplyAuthoritative(c, op, v).(inflight := None), slot.served);
    case RemoteOp(_, _, _, _, _) => RequestWeight(n, c.outbox, slot.served);
    case ResyncRequired(_, _, _, _) => RequestWeight(n, c.outbox, slot.served);
    case Welcome(_) =>
    case Error(_, _) =>
  }

  lemma RequestWeight(n: nat, outbox: seq<ClientMessage>, served: nat)
    requires served <= |outbox|
    ensures UpWeight(n, (outbox + [RequestDoc])[served..]) == UpWeight(n, outbox[served..]) + 2
  {
    var up := (outbox + [RequestDoc])[served..];
    assert up[..|up| - 1] == outbox[served..];
  }

  lemma PushWeight(n: nat, slot: Slot, messages: seq<ServerMessage>)
    requires CanServe(slot)
    ensures SlotWeight(n, Push(Served(slot), messages))
            + (if slot.client.outbox[slot.served].SubmitOp? then SubmitWeight(n) else 2)
            == SlotWeight(n, slot) + DownWeight(messages)
  {
    UpWeightSplit(n, Uplink(slot));
    assert Uplink(slot)[1..] == Uplink(Push(Served(slot), messages));
    DownWeightAppend(slot.down, messages);
  }

  lemma OneWeighs(m: ServerMessage)
    ensures DownWeight([m]) == MessageWeight(m)
  {
    assert [m][1..] == [];
  }

  lemma TwoWeigh(m: ServerMessage, m': ServerMessage)
    ensures DownWeight([m, m']) == MessageWeight(m) + MessageWeight(m')
  {
    assert [m, m'] == [m] + [m'];
    DownWeightAppend([m], [m']);
    OneWeighs(m);
    OneWeighs(m');
  }

  lemma AnswerWeight(s: System, i: nat, doc: Doc, r: ProcessResult)
    requires Sane(s.slots) && i < |s.slots| && CanServe(s.slots[i])
    requires s.slots[i].client.outbox[s.slots[i].served].SubmitOp?
    requires r.Processed? ==> r.ack.Ack? && r.remote.RemoteOp?
    ensures var t := Answer(s, i, Served(s.slots[i]), doc, r);
            && Sane(t.slots) && |t.slots| == |s.slots|
            && TotalWeight(|s.slots|, t.slots) < TotalWeight(|s.slots|, s.slots)
  {
    var n, slot := |s.slots|, s.slots[i];
    match r
    case Refused(error) =>
      PushWeight(n, slot, [error]);
      TotalWeightReplace(n, s.slots, i, Push(Served(slot), [error]));
    case Resync(required, state) =>
      PushWeight(n, slot, [required, state]);
      TwoWeigh(required, state);
      TotalWeightReplace(n, s.slots, i, Push(Served(slot), [required, state]));
    case Processed(ack, remote, _, _) =>
      PushWeight(n, slot, [ack]);
      TotalWeightReplace(n, s.slots, i, Push(Served(slot), [ack]));
      BroadcastWeight(n, s.slots[i := Push(Served(slot), [ack])], remote, slot.id);
  }

  lemma ServeWeight(s: System, i: nat)
    requires Sane(s.slots) && i < |s.slots| && CanServe(s.slots[i])
    ensures Sane(ServeSlot(s, i).slots) && |ServeSlot(s, i).slots| == |s.slots|
    ensures TotalWeight(|s.slots|, ServeSlot(s, i).slots) < TotalWeight(|s.slots|, s.slots)
  {
    var slot := s.slots[i];
    match slot.client.outbox[slot.served]
    case RequestDoc =>
      PushWeight(|s.slots|, slot, [StateMessage(s.doc)]);
      TotalWeightReplace(|s.slots|, s.slots, i, Push(Served(slot), [StateMessage(s.doc)]));
    case SubmitOp(_, opId, base, op) =>
      var (doc, r) := Process(s.doc, slot.id, opId, base, op);
      AnswerWeight(s, i, doc, r);
  }

  lemma {:induction false} FewerClientsWeighLess(m: nat, n: nat, slots: seq<Slot>)
    requires m <= n && Sane(slots)
    ensures TotalWeight(m, slots) <= TotalWeight(n, slots)
  {
    if slots != [] {
      FewerClientsWeighLess(m, n, slots[1..]);
      UplinkWeighsLess(m, n, Uplink(slots[0]));
      MultiplyMonotonic(SubmitWeight(m), SubmitWeight(n), |slots[0].client.queue|);
    }
  }

  lemma MultiplyMonotonic(a: nat, b: nat, k: nat)
    requires a <= b
    ensures a * k <= b * k
  {
  }

  lemma {:induction false} UplinkWeighsLess(m: nat, n: nat, up: seq<ClientMessage>)
    requires m <= n
    ensures UpWeight(m, up) <= UpWeight(n, up)
  {
    if up != [] {
      UplinkWeighsLess(m, n, up[..|up| - 1]);
    }
  }

  lemma {:induction false} LeaveWeight(n: nat, slots: seq<Slot>, i: nat)
    requires Sane(slots) && i < |slots|
    ensures Sane(slots[..i] + slots[i + 1..])
    ensures TotalWeight(n, slots[..i] + slots[i + 1..]) <= TotalWeight(n, slots)
  {
    var rest := slots[..i] + slots[i + 1..];
    if i == 0 {
      assert rest == slots[1..];
    } else {
      LeaveWeight(n, slots[1..], i - 1);
      assert rest[0] == slots[0] && rest[1..] == slots[1..][..i - 1] + slots[1..][i..];
    }
  }

  /** Steps in which no user types and nobody joins. */
  predicate Settles(step: Step) {
    step.Serve? || step.Deliver? || step.Leave?
  }

  /** Every such step, of any state whatever, lowers the measure. */
  lemma SettlingStep(s: System, step: Step)
    requires Sane(s.slots) && Enabled(s, step) && Settles(step)
    ensures Sane(Perform(s, step).slots) && Measure(Perform(s, step)) < Measure(s)
  {
    match step
    case Serve(i) => ServeWeight(s, i);
    case Deliver(i) =>
      DeliverWeight(|s.slots|, s.slots[i]);
      TotalWeightReplace(|s.slots|, s.slots, i, DeliverTo(s.slots[i]));
    case Leave(i) =>
      LeaveWeight(|s.slots|, s.slots, i);
      FewerClientsWeighLess(|s.slots| - 1, |s.slots|, s.slots[..i] + s.slots[i + 1..]);
  }

  /** So once typing and joining stop, every run, good or not, ends within that many steps. */
  lemma {:induction false} SettlingEnds(s: System, steps: seq<Step>)
    requires Sane(s.slots) && IsRun(s, steps)
    requires forall k :: 0 <= k < |steps| ==> Settles(steps[k])
    ensures Sane(After(s, steps).slots) && |steps| + Measure(After(s, steps)) <= Measure(s)
    decreases steps
  {
    if steps != [] {
      SettlingStep(s, steps[0]);
      SettlingEnds(Perform(s, steps[0]), steps[1..]);
    }
  }

  // ----- Settled states -----

  predicate Quiet(s: System) {
    forall k :: 0 <= k < |s.slots| ==> !CanServe(s.slots[k]) && !CanDeliver(s.slots[k])
  }

  /** When nothing is left to serve or deliver, every client shows the server's text and version and has
      sent all it typed, except one that is stuck behind an operation no server accepts. */
  lemma QuietMeansConverged(s: System, k: nat)
    requires Inv(s) && Quiet(s) && k < |s.slots|
    ensures var c := s.slots[k].client;
            && c.content == Text(s.doc) && c.version == Version(s.doc)
            && (c.inflight == None ==> c.queue == [])
            && (c.inflight.Some? ==> !Acceptable(c.inflight.value.op))
            && s.slots[k].received == Span(s.slots[k].joinedAt, Version(s.doc))
  {
    assert SlotInv(s.doc, s.slots[k]);
    assert !CanServe(s.slots[k]) && !CanDeliver(s.slots[k]);
  }

  /** Quiescence: a good run from the start that cannot go on without a user has converged. */
  lemma GoodRunsConverge(initial: string, limit: nat, steps: seq<Step>, k: nat)
    requires GoodRun(Start(initial, limit), steps)
    ensures IsRun(Start(initial, limit), steps)
    ensures var s := After(Start(initial, limit), steps);
            Quiet(s) && k < |s.slots| ==>
              var c := s.slots[k].client;
              && c.content == Text(s.doc) && c.version == Version(s.doc)
              && (c.inflight == None || Acceptable(c.inflight.value.op) ==> c.queue == [] && c.inflight == None)
  {
    StartInv(initial, limit);
    GoodRunKeeps(Start(initial, limit), steps);
    var s := After(Start(initial, limit), steps);
    if Quiet(s) && k < |s.slots| {
      QuietMeansConverged(s, k);
    }
  }
}
