/** What the keys do to the text. Everything pending applied, a terminal's text and cursor are an editor of two
    lists, the text before the cursor and the text after it: a character joins the first, a Backspace drops its
    last, and the arrows carry one character over. */
module TwoLists {
  import opened Operations
  import opened Messages
  import opened Documents
  import opened Clients
  import opened ClientRuns
  import opened Systems
  import opened Convergence
  import opened PoliteRuns
  import opened SoleEditor
  import opened Terminals
  import opened Replay
  import opened SoleTerminal

  datatype Lists = Lists(before: string, after: string)

  function Whole(z: Lists): string {
    z.before + z.after
  }

  function Struck(z: Lists, key: Key): Lists {
    match key
    case Character(ch) => Lists(z.before + [ch], z.after)
    case Backspace => if z.before == "" then z else Lists(z.before[..|z.before| - 1], z.after)
    case Left => if z.before == "" then z
                 else Lists(z.before[..|z.before| - 1], [z.before[|z.before| - 1]] + z.after)
    case Right => if z.after == "" then z else Lists(z.before + [z.after[0]], z.after[1..])
  }

  /** The cursor stands between the two lists, which make up the text. */
  predicate Between(z: Lists, text: string, cursor: nat) {
    Whole(z) == text && |z.before| == cursor
  }

  lemma CutAt(text: string, cursor: nat)
    requires cursor <= |text|
    ensures Between(Lists(text[..cursor], text[cursor..]), text, cursor)
  {
  }

  // ----- One key, at any terminal -----

  /** The text once everything pending is applied. */
  function TextToCome(c: Client): string {
    Sequential(c.content, PendingOps(c))
  }

  lemma QueueAppends(c: Client, op: Operation)
    ensures var d := QueueOperation(c, op); d.content == c.content && PendingOps(d) == PendingOps(c) + [op]
  {
    var pending := Pending(OpId(c.clientId, c.nextOpNumber), op, -1);
    assert QueueOps(c.queue + [pending]) == QueueOps(c.queue) + [op];
    if c.inflight == None {
      assert (c.queue + [pending])[1..] == if c.queue == [] then [] else c.queue[1..] + [pending];
      assert QueueOps(c.queue + [pending]) == [(c.queue + [pending])[0].op] + QueueOps((c.queue + [pending])[1..]);
    }
  }

  lemma TypedOn(c: Client, op: Operation)
    requires AllFit(c.content, PendingOps(c)) && Fits(op, |TextToCome(c)|)
    ensures var d := QueueOperation(c, op);
            TextToCome(d) == ApplyOp(TextToCome(c), op) && AllFit(d.content, PendingOps(d))
  {
    QueueAppends(c, op);
    SequentialLast(c.content, PendingOps(c), op);
    AllFitLast(c.content, PendingOps(c), op);
  }

  /** The terminal projects the length of the text to come. */
  lemma ProjectsLength(c: Client)
    requires AllFit(c.content, PendingOps(c))
    ensures Projected(c) == |TextToCome(c)|
  {
    PendingSplit(c);
    SequentialLength(c.content, PendingOps(c));
  }

  lemma KeyOnLists(z: Lists, key: Key, op: Operation)
    requires match key
             case Character(ch) => op == Operation(Insert, |z.before|, [ch], "")
             case Backspace => z.before != "" && op == Operation(Delete, |z.before| - 1, "", "")
             case Left => false
             case Right => false
    ensures ApplyOp(Whole(z), op) == Whole(Struck(z, key))
  {
    if key.Character? {
      assert Whole(z)[..|z.before|] == z.before && Whole(z)[|z.before|..] == z.after;
    } else {
      assert Whole(z)[..|z.before| - 1] == z.before[..|z.before| - 1] && Whole(z)[|z.before|..] == z.after;
    }
  }

  lemma KeyTyped(c: Client, z: Lists, key: Key, op: Operation)
    requires AllFit(c.content, PendingOps(c)) && TextToCome(c) == Whole(z)
    requires match key
             case Character(ch) => op == Operation(Insert, |z.before|, [ch], "")
             case Backspace => z.before != "" && op == Operation(Delete, |z.before| - 1, "", "")
             case Left => false
             case Right => false
    ensures var d := QueueOperation(c, op);
            TextToCome(d) == Whole(Struck(z, key)) && AllFit(d.content, PendingOps(d))
  {
    TypedOn(c, op);
    KeyOnLists(z, key, op);
  }

  lemma SlideLeft(z: Lists)
    requires z.before != ""
    ensures Whole(Struck(z, Left)) == Whole(z) && |Struck(z, Left).before| == |z.before| - 1
  {
    assert z.before == z.before[..|z.before| - 1] + [z.before[|z.before| - 1]];
  }

  lemma SlideRight(z: Lists)
    requires z.after != ""
    ensures Whole(Struck(z, Right)) == Whole(z) && |Struck(z, Right).before| == |z.before| + 1
  {
    assert z.after == [z.after[0]] + z.after[1..];
  }

  /** The arrows move between the lists, and only there. */
  lemma ArrowMoves(e: Editor, z: Lists, key: Key)
    requires AllFit(e.client.content, PendingOps(e.client)) && Between(z, TextToCome(e.client), e.cursor)
    requires key == Left || key == Right
    ensures Press(e, key).client == e.client && Between(Struck(z, key), TextToCome(e.client), Press(e, key).cursor)
  {
    ProjectsLength(e.client);
    if key == Left && z.before != "" {
      SlideLeft(z);
    } else if key == Right && z.after != "" {
      SlideRight(z);
    }
  }

  /** A key does to the text to come, and to the cursor, what it does to the two lists: with everything pending
      fitting and the cursor inside, a character goes in at the cursor, a Backspace takes the one in front of it,
      and the arrows move by one within the text and leave it alone. */
  lemma KeyEdits(e: Editor, z: Lists, key: Key)
    requires AllFit(e.client.content, PendingOps(e.client)) && Between(z, TextToCome(e.client), e.cursor)
    ensures var after := Press(e, key);
            && AllFit(after.client.content, PendingOps(after.client))
            && Between(Struck(z, key), TextToCome(after.client), after.cursor)
  {
    match key
    case Left => ArrowMoves(e, z, key);
    case Right => ArrowMoves(e, z, key);
    case Backspace =>
      if e.cursor > 0 {
        KeyTyped(e.client, z, key, Operation(Delete, e.cursor - 1, "", ""));
      }
    case Character(ch) => KeyTyped(e.client, z, key, Operation(Insert, e.cursor, [ch], ""));
  }

  /** Spelled out. */
  lemma KeyEffects(e: Editor, key: Key)
    requires AllFit(e.client.content, PendingOps(e.client)) && e.cursor <= |TextToCome(e.client)|
    ensures var t, c, after := TextToCome(e.client), e.cursor, Press(e, key);
            match key
            case Character(ch) => TextToCome(after.client) == t[..c] + [ch] + t[c..] && after.cursor == c + 1
            case Backspace =>
              if c > 0 then TextToCome(after.client) == t[..c - 1] + t[c..] && after.cursor == c - 1 else after == e
            case Left => after.client == e.client && after.cursor == (if c > 0 then c - 1 else 0)
            case Right => after.client == e.client && after.cursor == (if c < |t| then c + 1 else c)
  {
    var t, c := TextToCome(e.client), e.cursor;
    CutAt(t, c);
    KeyEdits(e, Lists(t[..c], t[c..]), key);
    ProjectsLength(e.client);
    if key.Backspace? && c > 0 {
      assert t[..c][..c - 1] == t[..c - 1];
    }
  }

  // ----- Taking messages -----

  lemma {:induction false} DrainLast(c: Client, down: seq<ServerMessage>, m: ServerMessage)
    ensures Drain(c, down + [m]) == Handle(Drain(c, down), m)
    decreases down
  {
    if down == [] {
      assert [m][1..] == [] && down + [m] == [m];
    } else {
      assert (down + [m])[0] == down[0] && (down + [m])[1..] == down[1..] + [m];
      DrainLast(Handle(c, down[0]), down[1..], m);
    }
  }

  /** Draining the messages at hand is replaying them, each once and in order; and the cursor stays where it was
      unless the text to come got shorter on the way, and then it ends where that was shortest. */
  lemma {:induction false} TakesEverything(e: Editor, incoming: seq<ServerMessage>)
    ensures TakeAll(e, incoming).client == Drain(e.client, incoming)
    ensures var cursor := TakeAll(e, incoming).cursor;
            && cursor <= e.cursor
            && (forall k :: 0 < k <= |incoming| ==> cursor <= Projected(Drain(e.client, incoming[..k])))
            && (cursor < e.cursor ==>
                  exists k :: 0 < k <= |incoming| && cursor == Projected(Drain(e.client, incoming[..k])))
  {
    if incoming != [] {
      var front, m := incoming[..|incoming| - 1], incoming[|incoming| - 1];
      TakesEverything(e, front);
      DrainLast(e.client, front, m);
      assert front + [m] == incoming == incoming[..|incoming|];
      assert forall k :: 0 <= k <= |front| ==> front[..k] == incoming[..k];
      var before, after := TakeAll(e, front).cursor, TakeAll(e, incoming).cursor;
      if after == before && before < e.cursor {
        var k :| 0 < k <= |front| && before == Projected(Drain(e.client, front[..k]));
        assert after == Projected(Drain(e.client, incoming[..k]));
      }
    }
  }

  // ----- Every run with one editor -----

  /** The keys struck, one after the other. */
  function ListsAfter(z: Lists, acts: seq<Act>): Lists
    decreases acts
  {
    if acts == [] then z else ListsAfter(if acts[0].Strike? then Struck(z, acts[0].key) else z, acts[1..])
  }

  /** What w typed, and its cursor, are the two lists; before its snapshot is there nothing is. */
  ghost predicate InLists(d: Doc, slot: Slot, z: Lists, cursor: nat) {
    Between(z, Intended(d, slot), cursor) && (!slot.synced ==> cursor == 0)
  }

  predicate Absent(slots: seq<Slot>, w: string) {
    forall slot :: slot in slots ==> slot.id != w
  }

  ghost predicate AtLists(desk: Desk, z: Lists, w: string) {
    var s := desk.system;
    && (forall slot :: slot in s.slots && slot.id == w ==> InLists(s.doc, slot, z, desk.cursor))
    && (Absent(s.slots, w) ==> z == Lists("", s.doc.initial) && desk.cursor == 0)
  }

  /** The pending operations of the writer fit the text it shows. */
  lemma PendingFits(d: Doc, slot: Slot)
    requires slot.synced && Shows(d, slot.client) && InStep(d, slot) && PendingFit(d, slot)
    ensures AllFit(slot.client.content, PendingOps(slot.client))
  {
    var c, rest := slot.client, QueueOps(slot.client.queue);
    PendingSplit(c);
    if AwaitsAck(slot) {
      assert Unapplied(slot) == rest && c.content == TextOf(d, Version(d) - 1);
      AllFitBehind(c.content, c.inflight.value.op, rest);
    } else {
      assert Unapplied(slot) == PendingOps(c) && c.content == Text(d);
    }
  }

  lemma {:induction false} AllFitBehind(text: string, op: Operation, ops: seq<Operation>)
    requires Fits(op, |text|) && AllFit(ApplyOp(text, op), ops)
    ensures AllFit(text, [op] + ops)
  {
    if ops == [] {
      assert ([op] + ops)[..0] == [];
    } else {
      var front := ops[..|ops| - 1];
      AllFitBehind(text, op, front);
      SequentialFirst(text, op, front);
      assert ([op] + ops)[..|ops|] == [op] + front;
    }
  }

  /** What is typed into the slot joins what was intended as it joins the text to come. */
  lemma TypedIntended(d: Doc, slot: Slot, op: Operation)
    requires TextToCome(slot.client) == Intended(d, slot)
    ensures Intended(d, TypeInto(slot, op)) == TextToCome(QueueOperation(slot.client, op))
  {
    TypedOpsLast(slot.events, Event.Typed(op));
    SequentialLast(d.initial, TypedOps(slot.events), op);
    QueueAppends(slot.client, op);
    SequentialLast(slot.client.content, PendingOps(slot.client), op);
  }

  function AfterStrike(slot: Slot, cursor: nat, key: Key): Slot {
    var edit := EditFor(Editor(slot.client, cursor), key);
    if edit.Some? then TypeInto(slot, edit.value) else slot
  }

  lemma SlotStruck(d: Doc, slot: Slot, z: Lists, cursor: nat, key: Key)
    requires SlotInv(d, slot) && Writer(d, slot) && PendingFit(d, slot) && slot.synced && InLists(d, slot, z, cursor)
    ensures InLists(d, AfterStrike(slot, cursor, key), Struck(z, key), Press(Editor(slot.client, cursor), key).cursor)
  {
    var e := Editor(slot.client, cursor);
    ProjectionExact(d, slot);
    PendingFits(d, slot);
    KeyEdits(e, z, key);
    if EditFor(e, key).Some? {
      TypedIntended(d, slot, EditFor(e, key).value);
    }
  }

  lemma OneInLists(desk: Desk, i: nat, slot: Slot, z: Lists, cursor: nat, w: string)
    requires DistinctIds(desk.system.slots) && i < |desk.system.slots| && desk.system.slots[i].id == w == slot.id
    requires InLists(desk.system.doc, slot, z, cursor)
    ensures AtLists(Desk(desk.system.(slots := desk.system.slots[i := slot]), cursor), z, w)
  {
    var slots := desk.system.slots[i := slot];
    assert slots[i] in slots;
    forall other | other in slots && other.id == w ensures other == slot {
      var k :| 0 <= k < |slots| && slots[k] == other;
    }
  }

  lemma WriterHere(desk: Desk, i: nat, w: string)
    requires DeskInv(desk, w) && i < |desk.system.slots| && desk.system.slots[i].id == w
    ensures var d, slot := desk.system.doc, desk.system.slots[i];
            slot in desk.system.slots && SlotInv(d, slot) && Writer(d, slot) && PendingFit(d, slot)
    ensures DistinctIds(desk.system.slots)
  {
  }

  lemma StrikeReplaces(desk: Desk, i: nat, key: Key, w: string)
    requires Allowed(desk, Strike(i, key), w)
    ensures Do(desk, Strike(i, key), w)
            == Desk(desk.system.(slots := desk.system.slots[i := AfterStrike(desk.system.slots[i], desk.cursor, key)]),
                    Press(EditorAt(desk, i), key).cursor)
  {
    assert desk.system.slots[i := desk.system.slots[i]] == desk.system.slots;
  }

  lemma StrikeAtLists(desk: Desk, z: Lists, i: nat, key: Key, w: string)
    requires DeskInv(desk, w) && AtLists(desk, z, w) && Allowed(desk, Strike(i, key), w)
    ensures AtLists(Do(desk, Strike(i, key), w), Struck(z, key), w)
  {
    var slot := desk.system.slots[i];
    WriterHere(desk, i, w);
    SlotStruck(desk.system.doc, slot, z, desk.cursor, key);
    StrikeReplaces(desk, i, key, w);
    OneInLists(desk, i, AfterStrike(slot, desk.cursor, key), Struck(z, key), Press(EditorAt(desk, i), key).cursor, w);
  }

  /** The clamp that follows a delivery finds the cursor inside already. */
  lemma SlotDelivered(d: Doc, slot: Slot, z: Lists, cursor: nat)
    requires SlotInv(d, slot) && Writer(d, slot) && PendingFit(d, slot) && InLists(d, slot, z, cursor)
    requires CanDeliver(slot) && !(slot.down[0].DocState? && slot.client.inflight.Some?)
    requires SlotInv(d, DeliverTo(slot)) && Writer(d, DeliverTo(slot))
    ensures InLists(d, DeliverTo(slot), z, Take(Editor(slot.client, cursor), slot.down[0]).cursor)
  {
    DeliveryKeepsFit(d, slot);
    if DeliverTo(slot).synced {
      ProjectionExact(d, DeliverTo(slot));
    }
  }

  lemma DeliverReplaces(desk: Desk, i: nat, w: string)
    requires Allowed(desk, Move(Deliver(i)), w)
    ensures var slot := desk.system.slots[i];
            Do(desk, Move(Deliver(i)), w)
            == Desk(desk.system.(slots := desk.system.slots[i := DeliverTo(slot)]),
                    if slot.id == w then Take(Editor(slot.client, desk.cursor), slot.down[0]).cursor else desk.cursor)
  {
  }

  lemma DeliverAtDesk(desk: Desk, z: Lists, i: nat, w: string)
    requires DeskInv(desk, w) && AtLists(desk, z, w) && Allowed(desk, Move(Deliver(i)), w)
    requires DeskInv(Do(desk, Move(Deliver(i)), w), w) && !ForgetsInFlight(desk.system, Deliver(i))
    requires desk.system.slots[i].id == w
    ensures AtLists(Do(desk, Move(Deliver(i)), w), z, w)
  {
    var slot := desk.system.slots[i];
    DeliverReplaces(desk, i, w);
    WriterHere(desk, i, w);
    WriterHere(Do(desk, Move(Deliver(i)), w), i, w);
    SlotDelivered(desk.system.doc, slot, z, desk.cursor);
    OneInLists(desk, i, DeliverTo(slot), z, Take(Editor(slot.client, desk.cursor), slot.down[0]).cursor, w);
  }

  lemma DeliverElsewhere(desk: Desk, z: Lists, i: nat, w: string)
    requires AtLists(desk, z, w) && Allowed(desk, Move(Deliver(i)), w) && desk.system.slots[i].id != w
    ensures AtLists(Do(desk, Move(Deliver(i)), w), z, w)
  {
    DeliverReplaces(desk, i, w);
    SameWriter(desk, Perform(desk.system, Deliver(i)), z, w);
  }

  lemma DeliverAtLists(desk: Desk, z: Lists, i: nat, w: string)
    requires DeskInv(desk, w) && AtLists(desk, z, w) && Allowed(desk, Move(Deliver(i)), w)
    requires DeskInv(Do(desk, Move(Deliver(i)), w), w) && !ForgetsInFlight(desk.system, Deliver(i))
    ensures AtLists(Do(desk, Move(Deliver(i)), w), z, w)
  {
    if desk.system.slots[i].id == w {
      DeliverAtDesk(desk, z, i, w);
    } else {
      DeliverElsewhere(desk, z, i, w);
    }
  }

  /** A step that leaves w's connection, and what was typed there, as it was. */
  lemma SameWriter(desk: Desk, t: System, z: Lists, w: string)
    requires AtLists(desk, z, w) && t.doc.initial == desk.system.doc.initial && |t.slots| == |desk.system.slots|
    requires forall k :: 0 <= k < |t.slots| ==>
               && t.slots[k].id == desk.system.slots[k].id
               && (t.slots[k].id == w ==> t.slots[k].events == desk.system.slots[k].events
                                          && t.slots[k].synced == desk.system.slots[k].synced)
    ensures AtLists(Desk(t, desk.cursor), z, w)
  {
    var s := desk.system;
    forall slot | slot in t.slots && slot.id == w ensures InLists(t.doc, slot, z, desk.cursor) {
      var k :| 0 <= k < |t.slots| && t.slots[k] == slot;
      assert s.slots[k] in s.slots && InLists(s.doc, s.slots[k], z, desk.cursor);
    }
    if Absent(t.slots, w) {
      forall slot | slot in s.slots ensures slot.id != w {
        var k :| 0 <= k < |s.slots| && s.slots[k] == slot;
        assert t.slots[k] in t.slots;
      }
    }
  }

  lemma ServeKeepsWriter(s: System, i: nat)
    requires i < |s.slots| && CanServe(s.slots[i])
    ensures var t := ServeSlot(s, i);
            && t.doc.initial == s.doc.initial && |t.slots| == |s.slots|
            && forall k :: 0 <= k < |s.slots| ==>
                 && t.slots[k].id == s.slots[k].id && t.slots[k].events == s.slots[k].events
                 && t.slots[k].synced == s.slots[k].synced
  {
  }

  lemma JoinAtLists(desk: Desk, z: Lists, requested: string, w: string)
    requires AtLists(desk, z, w)
    ensures AtLists(Do(desk, Move(Join(requested)), w), z, w)
  {
    var s, t := desk.system, Perform(desk.system, Join(requested));
    forall slot | slot in s.slots ensures slot in t.slots && slot.id in IdsOf(s.slots) {
      var k :| 0 <= k < |s.slots| && s.slots[k] == slot;
      assert t.slots[k + 1] == slot;
    }
    assert t.slots[0] in t.slots && t.slots[0].id !in IdsOf(s.slots);
  }

  lemma LeaveAtLists(desk: Desk, z: Lists, i: nat, w: string)
    requires AtLists(desk, z, w) && Allowed(desk, Move(Leave(i)), w)
    ensures AtLists(Do(desk, Move(Leave(i)), w), z, w)
  {
    var s, t := desk.system, Perform(desk.system, Leave(i));
    forall slot | slot in s.slots && slot.id == w ensures slot in t.slots {
      var k :| 0 <= k < |s.slots| && s.slots[k] == slot;
      assert t.slots[if k < i then k else k - 1] == slot;
    }
  }

  lemma ActAtLists(desk: Desk, z: Lists, act: Act, w: string)
    requires DeskInv(desk, w) && AtLists(desk, z, w) && Allowed(desk, act, w) && DeskInv(Do(desk, act, w), w)
    requires act.Move? ==> !ForgetsInFlight(desk.system, act.step)
    ensures AtLists(Do(desk, act, w), if act.Strike? then Struck(z, act.key) else z, w)
  {
    match act
    case Strike(i, key) => StrikeAtLists(desk, z, i, key, w);
    case Move(step) =>
      match step
      case Join(requested) => JoinAtLists(desk, z, requested, w);
      case Leave(i) => LeaveAtLists(desk, z, i, w);
      case Serve(i) =>
        ServeKeepsWriter(desk.system, i);
        SameWriter(desk, ServeSlot(desk.system, i), z, w);
      case Deliver(i) => DeliverAtLists(desk, z, i, w);
  }

  /** One act of a run. */
  lemma ActKeepsLists(desk: Desk, z: Lists, act: Act, w: string)
    requires DeskInv(desk, w) && PoliteInv(desk.system) && AtLists(desk, z, w) && Allowed(desk, act, w)
    ensures DeskInv(Do(desk, act, w), w) && PoliteInv(Do(desk, act, w).system)
    ensures AtLists(Do(desk, act, w), if act.Strike? then Struck(z, act.key) else z, w)
  {
    ActIsSole(desk, act, w);
    ActKeeps(desk, act, w);
    ActAtLists(desk, z, act, w);
  }

  lemma {:induction false} RunAtLists(desk: Desk, z: Lists, acts: seq<Act>, w: string)
    requires DeskInv(desk, w) && PoliteInv(desk.system) && AtLists(desk, z, w) && DeskRun(desk, acts, w)
    ensures DeskInv(AfterActs(desk, acts, w), w)
    ensures AtLists(AfterActs(desk, acts, w), ListsAfter(z, acts), w)
    decreases acts
  {
    if acts != [] {
      ActKeepsLists(desk, z, acts[0], w);
      RunAtLists(Do(desk, acts[0], w), if acts[0].Strike? then Struck(z, acts[0].key) else z, acts[1..], w);
    }
  }

  /** On every run in which only w edits, whatever is delivered, served and clamped in between: the text on show with
      everything pending applied is the two lists that w's keys make of the initial text, and the cursor stands
      between them. */
  lemma SoleEditorIsTwoLists(initial: string, limit: nat, acts: seq<Act>, w: string, i: nat)
    requires DeskRun(Desk(Start(initial, limit), 0), acts, w)
    ensures var desk := AfterActs(Desk(Start(initial, limit), 0), acts, w);
            i < |desk.system.slots| && desk.system.slots[i].id == w && desk.system.slots[i].synced ==>
              Between(ListsAfter(Lists("", initial), acts), TextToCome(desk.system.slots[i].client), desk.cursor)
  {
    var desk0 := Desk(Start(initial, limit), 0);
    StartInv(initial, limit);
    assert IdsOf(desk0.system.slots) == {};
    RunAtLists(desk0, Lists("", initial), acts, w);
    var desk := AfterActs(desk0, acts, w);
    if i < |desk.system.slots| && desk.system.slots[i].id == w && desk.system.slots[i].synced {
      assert desk.system.slots[i] in desk.system.slots;
      ProjectionExact(desk.system.doc, desk.system.slots[i]);
    }
  }
}
