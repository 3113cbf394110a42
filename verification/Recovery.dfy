/** Whether a client that was made to forget its operation in flight ever recovers, if its user does not type
    again: exactly when somebody else's operation is served after the forgotten one. */
module Recovery {
  import opened Messages
  import opened Documents
  import opened ClientRuns
  import opened Systems
  import opened Convergence
  import opened Replay
  import opened Registry

  // ----- The two phases -----

  /** Nothing typed is pending: all that the server has still to take are requests for the document. */
  predicate OnlyAsks(slot: Slot) {
    && slot.client.queue == [] && slot.served <= |slot.client.outbox|
    && forall k :: slot.served <= k < |slot.client.outbox| ==> slot.client.outbox[k] == RequestDoc
  }

  /** The ACK of version `missed` is on the way, and when it comes nothing will be in flight. */
  ghost predicate WillMiss(d: Doc, slot: Slot, missed: int, k: nat) {
    && OnlyAsks(slot) && !CanServe(slot)
    && (slot.synced ==> Shows(d, slot.client)) && Leads(d, Position(slot), slot.down)
    && k < |slot.down| && slot.down[k].Ack? && slot.down[k].version == missed
    && (forall j :: 0 <= j < |slot.down| && j != k ==> !IsReply(slot.down[j]))
    && (forall j :: k < j < |slot.down| ==> !slot.down[j].DocState?)
    && (slot.client.inflight == None || exists j :: 0 <= j < k && slot.down[j].DocState?)
  }

  /** It has come. The downlink goes on from version `from`; a client behind it asks for the document as soon as
      there is something to ask for, and every snapshot on the way is of a later version than the one missed. */
  ghost predicate HasMissed(d: Doc, slot: Slot, missed: int, from: int) {
    && OnlyAsks(slot) && slot.synced && slot.client.inflight == None
    && Shows(d, slot.client) && slot.client.version <= from <= Version(d) && missed <= from
    && Leads(d, Some(from), slot.down)
    && (forall j :: 0 <= j < |slot.down| ==> !IsReply(slot.down[j]))
    && (CanServe(slot) ==> missed < Version(d))
    && (forall j :: 0 <= j < |slot.down| && slot.down[j].DocState? ==> missed < slot.down[j].version)
    && (slot.client.version == from ==> missed < from)
    && (slot.client.version < from && missed < from ==>
          CanServe(slot) || exists j :: 0 <= j < |slot.down| && slot.down[j].DocState?)
  }

  ghost predicate Forgetful(d: Doc, slot: Slot, missed: int) {
    (exists k :: WillMiss(d, slot, missed, k)) || (exists from :: HasMissed(d, slot, missed, from))
  }

  lemma DoomedForgets(d: Doc, slot: Slot, k: nat)
    requires SlotInv(d, slot) && Doomed(slot) && slot.client.queue == [] && k < |slot.down| && slot.down[k].Ack?
    ensures WillMiss(d, slot, slot.down[k].version, k)
  {
    AckIsTheReply(slot, k);
    ReplyListed(slot.down, k);
    var j, a :| 0 <= j < a < |slot.down| && slot.down[j].DocState? && slot.down[a].Ack?;
    assert a == k;
  }

  // ----- What the client takes -----

  lemma TakesBefore(d: Doc, slot: Slot, missed: int, k: nat)
    requires ValidDoc(d) && WillMiss(d, slot, missed, k) && k > 0
    ensures WillMiss(d, DeliverTo(slot), missed, k - 1)
  {
    var c, m, rest := slot.client, slot.down[0], slot.down[1..];
    assert forall j :: 0 <= j < |rest| ==> rest[j] == slot.down[j + 1];
    if m.RemoteOp? {
      AppliesNextEntry(d, c, m);
    }
    if !m.DocState? && c.inflight.Some? {
      var j :| 0 <= j < k && slot.down[j].DocState?;
      assert rest[j - 1].DocState?;
    }
  }

  lemma Misses(d: Doc, slot: Slot, missed: int)
    requires WillMiss(d, slot, missed, 0)
    ensures HasMissed(d, DeliverTo(slot), missed, missed)
  {
    var rest := slot.down[1..];
    assert forall j :: 0 <= j < |rest| ==> rest[j] == slot.down[j + 1];
  }

  lemma TakesState(d: Doc, slot: Slot, missed: int, from: int)
    requires HasMissed(d, slot, missed, from) && slot.down != [] && slot.down[0].DocState?
    ensures HasMissed(d, DeliverTo(slot), missed, from)
  {
    var rest := slot.down[1..];
    assert forall j :: 0 <= j < |rest| ==> rest[j] == slot.down[j + 1];
  }

  lemma TakesRemote(d: Doc, slot: Slot, missed: int, from: int)
    requires HasMissed(d, slot, missed, from) && slot.down != [] && slot.down[0].RemoteOp?
    ensures HasMissed(d, DeliverTo(slot), missed, from + 1)
  {
    var c, m, rest := slot.client, slot.down[0], slot.down[1..];
    assert forall j :: 0 <= j < |rest| ==> rest[j] == slot.down[j + 1];
    if c.version == from {
      AppliesNextEntry(d, c, m);
    }
  }

  lemma TakesWelcome(d: Doc, slot: Slot, missed: int, from: int)
    requires HasMissed(d, slot, missed, from) && slot.down != [] && slot.down[0].Welcome?
    ensures HasMissed(d, DeliverTo(slot), missed, from)
  {
    var rest := slot.down[1..];
    assert forall j :: 0 <= j < |rest| ==> rest[j] == slot.down[j + 1];
    if slot.client.version < from && missed < from && !CanServe(slot) {
      var j :| 0 <= j < |slot.down| && slot.down[j].DocState?;
      assert rest[j - 1].DocState?;
    }
  }

  lemma TakesForgetful(d: Doc, slot: Slot, missed: int)
    requires ValidDoc(d) && Forgetful(d, slot, missed) && CanDeliver(slot)
    ensures Forgetful(d, DeliverTo(slot), missed)
  {
    if k :| WillMiss(d, slot, missed, k) {
      if k > 0 {
        TakesBefore(d, slot, missed, k);
      } else {
        Misses(d, slot, missed);
      }
    } else {
      var from :| HasMissed(d, slot, missed, from);
      match slot.down[0]
      case DocState(_, _, _) => TakesState(d, slot, missed, from);
      case RemoteOp(_, _, _, _, _) => TakesRemote(d, slot, missed, from);
      case Welcome(_) => TakesWelcome(d, slot, missed, from);
    }
  }

  // ----- What the server sends it -----

  lemma HearsBefore(d: Doc, d': Doc, slot: Slot, missed: int, k: nat, m: ServerMessage)
    requires WillMiss(d, slot, missed, k) && Grown(d, d') && m.RemoteOp? && Carries(d', m, Version(d'))
    ensures WillMiss(d', Push(slot, [m]), missed, k)
  {
    var down := slot.down + [m];
    assert forall j :: 0 <= j < |slot.down| ==> down[j] == slot.down[j];
    if slot.synced {
      GrownTexts(d, d', slot.client.version);
    }
    LeadsToNewEntry(d, d', Position(slot), slot.down, m);
  }

  lemma HearsAfter(d: Doc, d': Doc, slot: Slot, missed: int, from: int, m: ServerMessage)
    requires HasMissed(d, slot, missed, from) && Grown(d, d') && m.RemoteOp? && Carries(d', m, Version(d'))
    ensures HasMissed(d', Push(slot, [m]), missed, from)
  {
    var down := slot.down + [m];
    assert forall j :: 0 <= j < |slot.down| ==> down[j] == slot.down[j];
    GrownTexts(d, d', slot.client.version);
    LeadsToNewEntry(d, d', Some(from), slot.down, m);
  }

  lemma HearsForgetful(d: Doc, d': Doc, slot: Slot, missed: int, m: ServerMessage)
    requires Forgetful(d, slot, missed) && Grown(d, d') && m.RemoteOp? && Carries(d', m, Version(d'))
    ensures Forgetful(d', Push(slot, [m]), missed)
  {
    if k :| WillMiss(d, slot, missed, k) {
      HearsBefore(d, d', slot, missed, k, m);
    } else {
      var from :| HasMissed(d, slot, missed, from);
      HearsAfter(d, d', slot, missed, from, m);
    }
  }

  lemma AnsweredForgetful(d: Doc, slot: Slot, missed: int)
    requires ValidDoc(d) && Forgetful(d, slot, missed) && CanServe(slot)
    ensures slot.client.outbox[slot.served] == RequestDoc
    ensures Forgetful(d, Push(Served(slot), [StateMessage(d)]), missed)
  {
    var from :| HasMissed(d, slot, missed, from);
    var m, down := StateMessage(d), slot.down + [StateMessage(d)];
    LeadsToSame(d, Some(from), slot.down, m);
    assert forall j :: 0 <= j < |slot.down| ==> down[j] == slot.down[j];
    assert down[|slot.down|].DocState?;
    assert HasMissed(d, Push(Served(slot), [m]), missed, from);
  }

  // ----- Steps of the system -----

  /** The connection called `name` does not leave, and nothing is typed there. */
  predicate Silent(s: System, step: Step, name: string)
    requires Enabled(s, step)
  {
    match step
    case TypeOp(i, _) => s.slots[i].id != name
    case Leave(i) => s.slots[i].id != name
    case Join(_) => true
    case Serve(_) => true
    case Deliver(_) => true
  }

  predicate SilentRun(s: System, steps: seq<Step>, name: string)
    decreases steps
  {
    steps == [] ||
    (Enabled(s, steps[0]) && Silent(s, steps[0], name) && SilentRun(Perform(s, steps[0]), steps[1..], name))
  }

  ghost predicate ForgetfulInv(s: System, name: string, missed: int) {
    && ValidDoc(s.doc) && DistinctIds(s.slots)
    && name in IdsOf(s.slots)
    && (forall slot :: slot in s.slots && slot.id == name ==> Forgetful(s.doc, slot, missed))
  }

  lemma ServeForgetful(s: System, i: nat, name: string, missed: int)
    requires ForgetfulInv(s, name, missed) && i < |s.slots| && CanServe(s.slots[i])
    ensures var t := ServeSlot(s, i);
            ValidDoc(t.doc) && |t.slots| == |s.slots| && forall k :: 0 <= k < |s.slots| ==>
              t.slots[k].id == s.slots[k].id && (t.slots[k].id == name ==> Forgetful(t.doc, t.slots[k], missed))
  {
    var slot, t := s.slots[i], ServeSlot(s, i);
    if slot.id == name {
      AnsweredForgetful(s.doc, slot, missed);
    } else if slot.client.outbox[slot.served].SubmitOp? {
      var m := slot.client.outbox[slot.served];
      ProcessKeepsValid(s.doc, slot.id, m.opId, m.baseVersion, m.op);
      ProcessOutcome(s.doc, slot.id, m.opId, m.baseVersion, m.op);
      var (doc, r) := Process(s.doc, slot.id, m.opId, m.baseVersion, m.op);
      if r.Processed? {
        forall k | 0 <= k < |s.slots| && s.slots[k].id == name ensures Forgetful(t.doc, t.slots[k], missed) {
          HearsForgetful(s.doc, doc, s.slots[k], missed, r.remote);
        }
      }
    }
  }

  lemma JoinForgetful(s: System, requested: string, name: string, missed: int)
    requires ForgetfulInv(s, name, missed)
    ensures ForgetfulInv(Perform(s, Join(requested)), name, missed)
  {
    StepKeepsDistinct(s, Join(requested));
    var at :| 0 <= at < |s.slots| && s.slots[at].id == name;
    assert Perform(s, Join(requested)).slots[at + 1] == s.slots[at];
  }

  lemma LeaveForgetful(s: System, i: nat, name: string, missed: int)
    requires ForgetfulInv(s, name, missed) && i < |s.slots| && s.slots[i].id != name
    ensures ForgetfulInv(Perform(s, Leave(i)), name, missed)
  {
    StepKeepsDistinct(s, Leave(i));
    var at :| 0 <= at < |s.slots| && s.slots[at].id == name;
    assert Perform(s, Leave(i)).slots[if at < i then at else at - 1] == s.slots[at];
  }

  lemma ReplaceForgetful(s: System, i: nat, slot: Slot, name: string, missed: int)
    requires ForgetfulInv(s, name, missed) && i < |s.slots| && slot.id == s.slots[i].id
    requires slot.id == name ==> Forgetful(s.doc, slot, missed)
    ensures ForgetfulInv(s.(slots := s.slots[i := slot]), name, missed)
  {
    var at :| 0 <= at < |s.slots| && s.slots[at].id == name;
    assert s.slots[i := slot][at].id == name;
  }

  lemma StepForgetful(s: System, step: Step, name: string, missed: int)
    requires ForgetfulInv(s, name, missed) && Enabled(s, step) && Silent(s, step, name)
    ensures ForgetfulInv(Perform(s, step), name, missed)
  {
    match step
    case Join(requested) => JoinForgetful(s, requested, name, missed);
    case Leave(i) => LeaveForgetful(s, i, name, missed);
    case TypeOp(i, op) => ReplaceForgetful(s, i, TypeInto(s.slots[i], op), name, missed);
    case Serve(i) =>
      StepKeepsDistinct(s, step);
      ServeForgetful(s, i, name, missed);
      var at :| 0 <= at < |s.slots| && s.slots[at].id == name;
      assert ServeSlot(s, i).slots[at].id == name;
    case Deliver(i) =>
      if s.slots[i].id == name {
        TakesForgetful(s.doc, s.slots[i], missed);
      }
      ReplaceForgetful(s, i, DeliverTo(s.slots[i]), name, missed);
  }

  lemma {:induction false} RunForgetful(s: System, steps: seq<Step>, name: string, missed: int)
    requires ForgetfulInv(s, name, missed) && SilentRun(s, steps, name)
    ensures IsRun(s, steps) && ForgetfulInv(After(s, steps), name, missed)
    decreases steps
  {
    if steps != [] {
      StepForgetful(s, steps[0], name, missed);
      RunForgetful(Perform(s, steps[0]), steps[1..], name, missed);
    }
  }

  // ----- What it comes to -----

  lemma QuietForgetful(d: Doc, slot: Slot, missed: int)
    requires Forgetful(d, slot, missed) && slot.down == [] && !CanServe(slot)
    ensures missed <= Version(d) && slot.client.inflight == None
    ensures if missed < Version(d) then slot.client.version == Version(d) && slot.client.content == Text(d)
            else slot.client.version < Version(d)
  {
    var from :| HasMissed(d, slot, missed, from);
  }

  /** Connection i of s is going to forget its operation in flight, has nothing queued, and is sent that
      operation's ACK as number k of its downlink; its user does not type again. */
  ghost predicate ForgetsSilently(s: System, i: nat, k: nat, steps: seq<Step>) {
    && i < |s.slots| && Doomed(s.slots[i]) && s.slots[i].client.queue == [] && SilentRun(s, steps, s.slots[i].id)
    && k < |s.slots[i].down| && s.slots[i].down[k].Ack?
  }

  lemma RecoversFrom(s: System, i: nat, k: nat, steps: seq<Step>)
    requires Inv(s) && ForgetsSilently(s, i, k, steps)
    ensures IsRun(s, steps)
    ensures forall slot :: slot in After(s, steps).slots && slot.id == s.slots[i].id ==>
                             Forgetful(After(s, steps).doc, slot, s.slots[i].down[k].version)
  {
    DoomedForgets(s.doc, s.slots[i], k);
    RunForgetful(s, steps, s.slots[i].id, s.slots[i].down[k].version);
  }

  /** A client that a snapshot makes forget its operation in flight, with nothing queued, and whose user does not
      type again, recovers exactly when somebody else's operation is served after the forgotten one: then, when
      nothing is pending for it any more, it has the server's text and version, and otherwise an older version. */
  lemma ForgottenRecoversExactly(initial: string, limit: nat, before: seq<Step>, i: nat, k: nat, steps: seq<Step>,
                                 j: nat)
    requires GoodRun(Start(initial, limit), before)
    ensures IsRun(Start(initial, limit), before)
    ensures var s := After(Start(initial, limit), before);
            ForgetsSilently(s, i, k, steps) ==>
              && IsRun(s, steps)
              && var t, missed := After(s, steps), s.slots[i].down[k].version;
                 (j < |t.slots| && t.slots[j].id == s.slots[i].id && t.slots[j].down == [] && !CanServe(t.slots[j]) ==>
                    && missed <= Version(t.doc)
                    && if missed < Version(t.doc) then
                         t.slots[j].client.version == Version(t.doc) && t.slots[j].client.content == Text(t.doc)
                       else t.slots[j].client.version < Version(t.doc))
  {
    StartInv(initial, limit);
    GoodRunKeeps(Start(initial, limit), before);
    var s := After(Start(initial, limit), before);
    if ForgetsSilently(s, i, k, steps) {
      RecoversFrom(s, i, k, steps);
      var t := After(s, steps);
      if j < |t.slots| && t.slots[j].id == s.slots[i].id && t.slots[j].down == [] && !CanServe(t.slots[j]) {
        QuietForgetful(t.doc, t.slots[j], s.slots[i].down[k].version);
      }
    }
  }
}
