/** The editing end of client.c: a cursor that moves over the text as it will be once everything pending
    has been applied. */
module Terminals {
  import opened Operations
  import opened Messages
  import opened Clients

  /** Keys after decoding: a printable character or a line break is `Character`. */
  datatype Key = Left | Right | Backspace | Character(ch: char)

  datatype Editor = Editor(client: Client, cursor: nat)

  /** What a pending operation is taken to do to the length. */
  function Delta(op: Operation): int {
    match op.kind
    case Insert => 1
    case Delete => -1
    case Noop => 0
    case Invalid => 0
  }

  function Deltas(queue: seq<Pending>): int {
    if queue == [] then 0 else Deltas(queue[..|queue| - 1]) + Delta(queue[|queue| - 1].op)
  }

  /** The projected length before it is cut off at zero. */
  function RawLength(c: Client): int {
    |c.content| + (if c.inflight.Some? then Delta(c.inflight.value.op) else 0) + Deltas(c.queue)
  }

  function Projected(c: Client): nat {
    if RawLength(c) < 0 then 0 else RawLength(c)
  }

  function Clamped(e: Editor): Editor {
    e.(cursor := Min(e.cursor, Projected(e.client)))
  }

  function Take(e: Editor, m: ServerMessage): Editor {
    Clamped(e.(client := Handle(e.client, m)))
  }

  function TakeAll(e: Editor, incoming: seq<ServerMessage>): Editor {
    if incoming == [] then e else Take(TakeAll(e, incoming[..|incoming| - 1]), incoming[|incoming| - 1])
  }

  /** The edit a key stands for, if any. */
  function EditFor(e: Editor, key: Key): Option<Operation> {
    match key
    case Character(ch) => Some(Operation(Insert, e.cursor, [ch], ""))
    case Backspace => if e.cursor == 0 then None else Some(Operation(Delete, e.cursor - 1, "", ""))
    case Left => None
    case Right => None
  }

  function Press(e: Editor, key: Key): Editor {
    match key
    case Left => if e.cursor > 0 then e.(cursor := e.cursor - 1) else e
    case Right => if e.cursor < Projected(e.client) then e.(cursor := e.cursor + 1) else e
    case Backspace =>
      if e.cursor == 0 then e else Editor(QueueOperation(e.client, EditFor(e, key).value), e.cursor - 1)
    case Character(_) => Editor(QueueOperation(e.client, EditFor(e, key).value), e.cursor + 1)
  }

  // ----- The projected length under typing -----

  lemma {:induction false} DeltasSplit(queue: seq<Pending>)
    requires queue != []
    ensures Deltas(queue) == Delta(queue[0].op) + Deltas(queue[1..])
  {
    var front, last := queue[..|queue| - 1], queue[|queue| - 1];
    if front == [] {
      assert queue[1..] == [];
    } else {
      DeltasSplit(front);
      assert queue[1..][..|queue| - 2] == front[1..];
    }
  }

  lemma PumpKeepsLength(c: Client)
    ensures RawLength(Pump(c)) == RawLength(c)
  {
    if c.inflight == None && c.queue != [] {
      DeltasSplit(c.queue);
    }
  }

  lemma TypingChangesLength(c: Client, op: Operation)
    ensures RawLength(QueueOperation(c, op)) == RawLength(c) + Delta(op)
  {
    var pending := Pending(OpId(c.clientId, c.nextOpNumber), op, -1);
    assert (c.queue + [pending])[..|c.queue|] == c.queue;
    PumpKeepsLength(c.(nextOpNumber := c.nextOpNumber + 1, queue := c.queue + [pending]));
  }

  /** Once the messages at hand are taken the cursor is within the projected text, whatever it was. */
  lemma TakingClamps(e: Editor, incoming: seq<ServerMessage>)
    ensures incoming != [] || e.cursor <= Projected(e.client) ==>
              TakeAll(e, incoming).cursor <= Projected(TakeAll(e, incoming).client)
  {
  }

  /** A key keeps the cursor within the projected text, but for one case: a character typed while more
      deletions are pending than there are characters. */
  lemma CursorExact(e: Editor, key: Key)
    requires e.cursor <= Projected(e.client)
    ensures Press(e, key).cursor <= Projected(Press(e, key).client)
            <==> !(key.Character? && RawLength(e.client) < 0)
  {
    var edit := EditFor(e, key);
    if edit.Some? {
      TypingChangesLength(e.client, edit.value);
    }
  }

  const GONE := Operation(Delete, 0, "", "")
  const SHRUNK := RemoteOp("u2", "u2-1", 1, 1, Some(GONE))

  /** That case occurs: somebody else deletes the only character while our own deletion of it is in flight. */
  lemma CursorEscapes(e: Editor)
    requires e.cursor == 0 && e.client.content == "a" && e.client.version == 0 && e.client.queue == []
    requires e.client.inflight.Some? && e.client.inflight.value.op == GONE
    ensures var e' := Take(e, SHRUNK);
            && e'.cursor == 0 && RawLength(e'.client) == -1
            && Press(e', Character('x')).cursor == 1 && Projected(Press(e', Character('x')).client) == 0
  {
    var e' := Take(e, SHRUNK);
    assert e'.client == ApplyAuthoritative(e.client, Some(GONE), 1);
    TypingChangesLength(e'.client, Operation(Insert, 0, "x", ""));
  }

  lemma BackspaceInFlight(c: Client)
    requires c.inflight == None && c.queue == [] && c.content == "a" && c.version == 0
    ensures var e := Press(Editor(c, 1), Backspace);
            && e.cursor == 0 && e.client.content == "a" && e.client.version == 0 && e.client.queue == []
            && e.client.inflight.Some? && e.client.inflight.value.op == GONE
  {
  }

  lemma CursorEscapesFromStart()
    ensures var e := Press(Press(Take(Editor(NewClient("u1"), 0), DocState(0, 0, Some("a"))), Right), Backspace);
            Press(Take(e, SHRUNK), Character('x')).cursor > Projected(Press(Take(e, SHRUNK), Character('x')).client)
  {
    var e0 := Take(Editor(NewClient("u1"), 0), DocState(0, 0, Some("a")));
    assert e0.client == NewClient("u1").(content := "a") && e0.cursor == 0 && Projected(e0.client) == 1;
    BackspaceInFlight(e0.client);
    CursorEscapes(Press(Press(e0, Right), Backspace));
  }

  // ----- The terminal as it runs -----

  class Terminal {
    const state: ClientState
    var cursorPos: nat
    var incoming: seq<ServerMessage>

    ghost predicate Valid()
      reads this, state
    {
      state.Valid()
    }

    ghost function View(): Editor
      reads this, state, state.queue
      requires Valid()
    {
      Editor(state.View(), cursorPos)
    }

    constructor (id: string)
      ensures Valid() && fresh(state) && fresh(state.queue) && View() == Editor(NewClient(id), 0) && incoming == []
    {
      state := new ClientState(id);
      cursorPos, incoming := 0, [];
    }

    method ProjectedContentLength() returns (len: nat)
      requires Valid()
      ensures len == Projected(View().client)
    {
      var raw: int := |state.content|;
      if state.inflight.Some? {
        raw := raw + Delta(state.inflight.value.op);
      }
      ghost var before := raw;
      for i := 0 to state.queueLen
        invariant raw == before + Deltas(state.queue[..i])
      {
        assert state.queue[..i + 1][..i] == state.queue[..i];
        raw := raw + Delta(state.queue[i].op);
      }
      len := if raw < 0 then 0 else raw;
    }

    method ClampCursor()
      requires Valid()
      modifies this`cursorPos
      ensures Valid() && View() == Clamped(old(View()))
    {
      var len := ProjectedContentLength();
      if cursorPos > len {
        cursorPos := len;
      }
    }

    method TakeOne(message: ServerMessage)
      requires Valid()
      modifies this`cursorPos, state, state.queue
      ensures Valid() && state.queue == old(state.queue)
      ensures View() == Take(old(View()), message)
    {
      state.HandleMessage(message);
      ClampCursor();
    }

    /** Takes every message that has arrived. */
    method DrainMessages()
      requires Valid()
      modifies this, state, state.queue
      ensures Valid() && state.queue == old(state.queue) && incoming == []
      ensures View() == TakeAll(old(View()), old(incoming))
    {
      ghost var all, start := incoming, View();
      ghost var taken: nat := 0;
      while incoming != []
        invariant Valid() && state.queue == old(state.queue)
        invariant taken <= |all| && incoming == all[taken..]
        invariant View() == TakeAll(start, all[..taken])
        decreases |incoming|
      {
        var message := incoming[0];
        incoming := incoming[1..];
        assert all[..taken + 1][..taken] == all[..taken];
        TakeOne(message);
        taken := taken + 1;
      }
      assert all[..taken] == all;
    }

    method QueueInsert(ch: char)
      requires Valid()
      modifies this`cursorPos, state, state.queue
      ensures Valid() && View() == Press(old(View()), Character(ch))
    {
      var op := Operation(Insert, cursorPos, [ch], "");
      var _ := state.Enqueue(op);
      cursorPos := cursorPos + 1;
    }

    method DeleteBeforeCursor()
      requires Valid()
      modifies this`cursorPos, state, state.queue
      ensures Valid() && View() == Press(old(View()), Backspace)
    {
      if cursorPos == 0 {
        return;
      }
      var op := Operation(Delete, cursorPos - 1, "", "");
      var _ := state.Enqueue(op);
      cursorPos := cursorPos - 1;
    }

    method HandleKey(key: Key)
      requires Valid()
      modifies this`cursorPos, state, state.queue
      ensures Valid() && View() == Press(old(View()), key)
    {
      match key
      case Left =>
        if cursorPos > 0 {
          cursorPos := cursorPos - 1;
        }
      case Right =>
        var len := ProjectedContentLength();
        if cursorPos < len {
          cursorPos := cursorPos + 1;
        }
      case Backspace => DeleteBeforeCursor();
      case Character(ch) => QueueInsert(ch);
    }
  }
}
