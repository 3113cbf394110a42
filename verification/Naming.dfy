/** Under which name a client works: the one it asked for until its WELCOME comes, which is the first message to
    come, and from then on the one the server chose. */
module Naming {
  import opened Messages
  import opened Documents
  import opened Clients
  import opened ClientRuns
  import opened Systems
  import opened Convergence
  import opened Registry
  import opened Conservation
  import opened Histories

  predicate Heard(events: seq<Event>) {
    events != [] && (events[|events| - 1].Received? || Heard(events[..|events| - 1]))
  }

  predicate Welcomes(e: Event) {
    e.Received? && e.message.Welcome?
  }

  predicate Welcomed(events: seq<Event>) {
    events != [] && (Welcomes(events[|events| - 1]) || Welcomed(events[..|events| - 1]))
  }

  /** The first message to come is a WELCOME, and every WELCOME gives this name. */
  predicate WelcomedAs(events: seq<Event>, name: string) {
    events == [] ||
    var earlier, last := events[..|events| - 1], events[|events| - 1];
    && WelcomedAs(earlier, name)
    && (Welcomes(last) ==> last.message.clientId == name)
    && (last.Received? && !Heard(earlier) ==> Welcomes(last))
  }

  lemma {:induction false} WelcomedAsEarlier(events: seq<Event>, name: string, n: nat)
    requires n <= |events| && WelcomedAs(events, name)
    ensures WelcomedAs(events[..n], name)
  {
    if n < |events| {
      assert events[..|events| - 1][..n] == events[..n];
      WelcomedAsEarlier(events[..|events| - 1], name, n);
    } else {
      assert events[..n] == events;
    }
  }

  lemma {:induction false} HeardIsWelcomed(events: seq<Event>, name: string)
    requires WelcomedAs(events, name)
    ensures Welcomed(events) <==> Heard(events)
  {
    if events != [] {
      HeardIsWelcomed(events[..|events| - 1], name);
    }
  }

  lemma {:induction false} StaysWelcomed(events: seq<Event>, n: nat, m: nat)
    requires n <= m <= |events| && Welcomed(events[..n])
    ensures Welcomed(events[..m])
  {
    if n < m {
      StaysWelcomed(events, n, m - 1);
      assert events[..m][..m - 1] == events[..m - 1];
    }
  }

  // ----- One client -----

  lemma ReactName(c: Client, e: Event)
    ensures React(c, e).clientId == if Welcomes(e) && e.message.clientId != "" then e.message.clientId else c.clientId
  {
  }

  lemma {:induction false} WelcomeNames(requested: string, events: seq<Event>, name: string)
    requires name != "" && WelcomedAs(events, name)
    ensures Run(NewClient(requested), events).clientId == if Welcomed(events) then name else requested
  {
    if events != [] {
      WelcomeNames(requested, events[..|events| - 1], name);
      ReactName(Run(NewClient(requested), events[..|events| - 1]), events[|events| - 1]);
    }
  }

  /** The operations sent from message number `from` on go out under `name`. */
  predicate SentUnder(outbox: seq<ClientMessage>, from: nat, name: string) {
    forall k :: from <= k < |outbox| && outbox[k].SubmitOp? ==> outbox[k].clientId == name
  }

  /** What a client sends goes out under the name it has. */
  lemma ReactSendsUnder(c: Client, e: Event)
    ensures c.outbox <= React(c, e).outbox && SentUnder(React(c, e).outbox, |c.outbox|, c.clientId)
  {
  }

  lemma SentOn(earlier: seq<ClientMessage>, later: seq<ClientMessage>, from: nat, name: string)
    requires from <= |earlier| && earlier <= later
    requires SentUnder(earlier, from, name) && SentUnder(later, |earlier|, name)
    ensures SentUnder(later, from, name)
  {
  }

  /** From the moment it is welcomed, everything goes out under that name. */
  lemma {:induction false} SendsUnder(slot: Slot, n: nat, m: nat)
    requires n <= m <= |slot.events| && slot.id != "" && WelcomedAs(slot.events, slot.id) && Welcomed(slot.events[..n])
    ensures Then(slot, n).outbox <= Then(slot, m).outbox
    ensures SentUnder(Then(slot, m).outbox, |Then(slot, n).outbox|, slot.id)
  {
    if n < m {
      SendsUnder(slot, n, m - 1);
      StaysWelcomed(slot.events, n, m - 1);
      WelcomedAsEarlier(slot.events, slot.id, m - 1);
      WelcomeNames(slot.requested, slot.events[..m - 1], slot.id);
      var c, e := Then(slot, m - 1), slot.events[m - 1];
      assert slot.events[..m][..m - 1] == slot.events[..m - 1];
      assert Then(slot, m) == React(c, e);
      ReactSendsUnder(c, e);
      SentOn(c.outbox, React(c, e).outbox, |Then(slot, n).outbox|, slot.id);
    }
  }

  /** An edit's id begins with the name it was typed under, cut to 48 characters. */
  lemma TypedUnder(slot: Slot, n: nat)
    requires n < |slot.events| && slot.events[n].Typed?
    ensures var name, edits := Then(slot, n).clientId, TypedEdits(NewClient(slot.requested), slot.events[..n + 1]);
            edits != [] && (if |name| <= 48 then name else name[..48]) + "-" <= edits[|edits| - 1].opId
  {
    assert slot.events[..n + 1][..n] == slot.events[..n];
  }

  // ----- Every run of the system -----

  /** The server welcomes a connection under its name and no other, before it sends it anything else. */
  ghost predicate Named(slot: Slot) {
    && slot.id != "" && slot.client == Run(NewClient(slot.requested), slot.events)
    && WelcomedAs(slot.events, slot.id)
    && (forall k :: 0 <= k < |slot.down| && slot.down[k].Welcome? ==> slot.down[k].clientId == slot.id)
    && (!Heard(slot.events) ==> slot.down != [] && slot.down[0].Welcome?)
  }

  ghost predicate NamedInv(s: System) {
    forall slot :: slot in s.slots ==> Named(slot)
  }

  lemma EventNames(slot: Slot, slot': Slot, e: Event)
    requires Named(slot) && slot'.id == slot.id && slot'.requested == slot.requested
    requires slot'.events == slot.events + [e] && slot'.client == React(slot.client, e)
    requires e.Received? ==> slot.down != [] && e.message == slot.down[0] && slot'.down == slot.down[1..]
    requires e.Typed? ==> slot'.down == slot.down
    ensures Named(slot')
  {
    RunOneMore(slot.requested, slot.events, e);
    assert slot'.events[|slot.events|] == e && slot'.events[..|slot.events|] == slot.events;
  }

  lemma MoreNames(slot: Slot, messages: seq<ServerMessage>, served: nat)
    requires Named(slot) && forall k :: 0 <= k < |messages| ==> !messages[k].Welcome?
    ensures Named(slot.(served := served, down := slot.down + messages))
  {
  }

  lemma NothingWelcomes(s: System, i: nat)
    requires i < |s.slots| && CanServe(s.slots[i]) && DistinctIds(s.slots) && NamedInv(s)
    ensures NamedInv(ServeSlot(s, i))
  {
    var slot := s.slots[i];
    var own, others := AnsweredWith(s, i);
    forall k | 0 <= k < |s.slots| ensures Named(ServeSlot(s, i).slots[k]) {
      assert s.slots[k] in s.slots;
      if k == i {
        MoreNames(slot, own, slot.served + 1);
      } else {
        MoreNames(s.slots[k], others, s.slots[k].served);
      }
    }
  }

  /** Serving welcomes nobody. */
  lemma AnsweredWith(s: System, i: nat) returns (own: seq<ServerMessage>, others: seq<ServerMessage>)
    requires i < |s.slots| && CanServe(s.slots[i]) && DistinctIds(s.slots)
    ensures ServedAll(s, i, ServeSlot(s, i), own, others)
    ensures forall k :: 0 <= k < |own| ==> !own[k].Welcome?
    ensures forall k :: 0 <= k < |others| ==> !others[k].Welcome?
  {
    var slot := s.slots[i];
    match slot.client.outbox[slot.served]
    case RequestDoc => own, others := [StateMessage(s.doc)], [];
    case SubmitOp(_, opId, base, op) =>
      var (doc, r) := Process(s.doc, slot.id, opId, base, op);
      match r
      case Refused(error) => own, others := [error], [];
      case Resync(required, state) => own, others := [required, state], [];
      case Processed(ack, remote, _, _) => own, others := [ack], [remote];
  }

  lemma StepNames(s: System, step: Step)
    requires NamedInv(s) && DistinctIds(s.slots) && Enabled(s, step)
    ensures NamedInv(Perform(s, step)) && DistinctIds(Perform(s, step).slots)
  {
    StepKeepsDistinct(s, step);
    match step
    case Join(requested) =>
      var (id, _) := ChooseId(IdsOf(s.slots), requested, s.nextClientNumber);
      assert Named(Newcomer(s.doc, id, requested));
    case Leave(i) =>
    case TypeOp(i, op) => EventNames(s.slots[i], TypeInto(s.slots[i], op), Event.Typed(op));
    case Deliver(i) => EventNames(s.slots[i], DeliverTo(s.slots[i]), Received(s.slots[i].down[0]));
    case Serve(i) => NothingWelcomes(s, i);
  }

  lemma {:induction false} RunNames(s: System, steps: seq<Step>)
    requires NamedInv(s) && DistinctIds(s.slots) && IsRun(s, steps)
    ensures NamedInv(After(s, steps))
    decreases steps
  {
    if steps != [] {
      StepNames(s, steps[0]);
      RunNames(Perform(s, steps[0]), steps[1..]);
    }
  }

  /** What event n finds, and what comes of it. */
  ghost predicate WorksUnder(slot: Slot, n: nat, name: string)
    requires n <= |slot.events|
  {
    && Welcomed(slot.events[..n]) && Then(slot, n).clientId == name
    && |Then(slot, n).outbox| <= |slot.client.outbox|
    && SentUnder(slot.client.outbox, |Then(slot, n).outbox|, name)
    && (n < |slot.events| && slot.events[n].Typed? ==>
          var edits := TypedEdits(NewClient(slot.requested), slot.events[..n + 1]);
          edits != [] && (if |name| <= 48 then name else name[..48]) + "-" <= edits[|edits| - 1].opId)
  }

  lemma NamedWorks(slot: Slot, n: nat)
    requires Named(slot) && n <= |slot.events| && Heard(slot.events[..n])
    ensures WorksUnder(slot, n, slot.id)
  {
    WelcomedAsEarlier(slot.events, slot.id, n);
    HeardIsWelcomed(slot.events[..n], slot.id);
    WelcomeNames(slot.requested, slot.events[..n], slot.id);
    assert slot.events[..|slot.events|] == slot.events;
    SendsUnder(slot, n, |slot.events|);
    if n < |slot.events| && slot.events[n].Typed? {
      TypedUnder(slot, n);
    }
  }

  /** On every run: once anything has reached a client, its WELCOME has; it works under the id the server has it
      by, whatever it asked for; what it sends from then on carries that id; and what is typed from then on has an
      operation id that begins with it. */
  lemma WorksUnderItsId(initial: string, limit: nat, steps: seq<Step>, k: nat, n: nat)
    requires IsRun(Start(initial, limit), steps)
    ensures var s := After(Start(initial, limit), steps);
            k < |s.slots| && n <= |s.slots[k].events| && Heard(s.slots[k].events[..n]) ==>
              WorksUnder(s.slots[k], n, s.slots[k].id)
  {
    RunNames(Start(initial, limit), steps);
    var s := After(Start(initial, limit), steps);
    if k < |s.slots| && n <= |s.slots[k].events| && Heard(s.slots[k].events[..n]) {
      assert s.slots[k] in s.slots;
      NamedWorks(s.slots[k], n);
    }
  }
}
