/** The authoritative document of document.c: a text, a version and a bounded history of the operations
    applied, refining an unbounded log of every operation ever applied. */
module Documents {
  import opened Operations
  import opened Messages

  const DEFAULT_HISTORY_LIMIT := 1000

  datatype HistoryEntry = HistoryEntry(
    serverVersion: int, clientId: string, opId: string, baseVersion: int, originalOp: Operation, op: Operation)

  /** The document as a value: everything else follows from the initial text and the full log. */
  datatype Doc = Doc(initial: string, limit: nat, log: seq<HistoryEntry>)

  datatype ProcessResult =
    | Processed(ack: ServerMessage, remote: ServerMessage, snapshotContent: string, snapshotVersion: int)
    | Refused(error: ServerMessage)
    | Resync(required: ServerMessage, state: ServerMessage)

  function Ops(log: seq<HistoryEntry>): seq<Operation> {
    seq(|log|, i requires 0 <= i < |log| => log[i].op)
  }

  function Version(d: Doc): nat {
    |d.log|
  }

  function TextOf(d: Doc, v: nat): string
    requires v <= Version(d)
  {
    TextAt(d.initial, Ops(d.log), v)
  }

  function Text(d: Doc): string {
    TextOf(d, Version(d))
  }

  /** The oldest version an operation may still be based on: the history keeps the last `limit` entries. */
  function HistoryStart(d: Doc): nat {
    if |d.log| < d.limit then 0 else |d.log| - d.limit
  }

  /** Log entries carry the version they produced. */
  ghost predicate Numbered(log: seq<HistoryEntry>) {
    forall k :: 0 <= k < |log| ==> log[k].serverVersion == k + 1
  }

  ghost predicate ValidDoc(d: Doc) {
    d.limit > 0 && Numbered(d.log) && ValidLog(d.initial, Ops(d.log), |d.log|)
  }

  function StateMessage(d: Doc): ServerMessage {
    DocState(Version(d), HistoryStart(d), Some(Text(d)))
  }

  // ----- Processing one operation, on the full log -----

  predicate Accepts(d: Doc, base: int) {
    HistoryStart(d) <= base <= Version(d)
  }

  function EntryFor(d: Doc, clientId: string, opId: string, base: nat, op: Operation): HistoryEntry {
    HistoryEntry(Version(d) + 1, clientId, opId, base, op, Ordered(d.initial, Ops(d.log), base, op))
  }

  function AckFor(e: HistoryEntry): ServerMessage {
    Ack(e.clientId, e.opId, e.baseVersion, e.serverVersion, e.serverVersion, Some(e.op), Some(e.originalOp))
  }

  function RemoteFor(e: HistoryEntry): ServerMessage {
    RemoteOp(e.clientId, e.opId, e.serverVersion, e.serverVersion, Some(e.op))
  }

  function ResyncFor(d: Doc, opId: string, base: int): ServerMessage {
    ResyncRequired(opId,
                   if base < HistoryStart(d) then "operation history expired" else "client version is ahead of server",
                   Version(d), HistoryStart(d))
  }

  function Process(d: Doc, clientId: string, opId: string, base: int, op: Option<Operation>): (Doc, ProcessResult) {
    if op == None || op.value.kind == Invalid then
      (d, Refused(Error(opId, "invalid operation")))
    else if !Acceptable(op.value) then
      (d, Refused(Error(opId, "insert operation requires one UTF-8 character")))
    else if !Accepts(d, base) then
      (d, Resync(ResyncFor(d, opId, base), StateMessage(d)))
    else
      var e := EntryFor(d, clientId, opId, base, op.value);
      var d' := d.(log := d.log + [e]);
      (d', Processed(AckFor(e), RemoteFor(e), Text(d'), Version(d')))
  }

  lemma OpsAppend(log: seq<HistoryEntry>, e: HistoryEntry)
    ensures Ops(log + [e]) == Ops(log) + [e.op]
  {
  }

  /** Appending the entry for an accepted operation. */
  lemma AppendKeepsValid(d: Doc, e: HistoryEntry, base: nat, op: Operation)
    requires ValidDoc(d) && base <= Version(d) && Acceptable(op)
    requires e.serverVersion == Version(d) + 1 && e.op == Ordered(d.initial, Ops(d.log), base, op)
    ensures var d' := d.(log := d.log + [e]);
            && ValidDoc(d') && Version(d') == Version(d) + 1 && Ops(d.log) <= Ops(d'.log)
            && Text(d') == ApplyOp(Text(d), e.op)
  {
    OpsAppend(d.log, e);
    OrderedKeepsLogValid(d.initial, Ops(d.log), base, op);
  }

  /** Every call keeps the document valid, leaves the past alone, and either appends exactly one
      entry, whose effect on the text is that of the recorded operation, or changes nothing. */
  lemma ProcessKeepsValid(d: Doc, clientId: string, opId: string, base: int, op: Option<Operation>)
    requires ValidDoc(d)
    ensures var (d', r) := Process(d, clientId, opId, base, op);
            && ValidDoc(d') && d'.initial == d.initial && d'.limit == d.limit
            && d.log <= d'.log && Ops(d.log) <= Ops(d'.log)
            && (r.Processed? <==> op.Some? && Acceptable(op.value) && Accepts(d, base))
            && (!r.Processed? ==> d' == d)
            && (r.Processed? ==>
                  && Version(d') == Version(d) + 1
                  && Text(d') == ApplyOp(Text(d), d'.log[Version(d)].op))
  {
    if op.Some? && Acceptable(op.value) && Accepts(d, base) {
      AppendKeepsValid(d, EntryFor(d, clientId, opId, base, op.value), base, op.value);
    }
  }

  /** No call changes any text of the past. */
  lemma ProcessKeepsPast(d: Doc, clientId: string, opId: string, base: int, op: Option<Operation>, v: nat)
    requires ValidDoc(d) && v <= Version(d)
    ensures v <= Version(Process(d, clientId, opId, base, op).0)
    ensures TextOf(Process(d, clientId, opId, base, op).0, v) == TextOf(d, v)
  {
    ProcessKeepsValid(d, clientId, opId, base, op);
    TextAtPrefix(d.initial, Ops(d.log), Ops(Process(d, clientId, opId, base, op).0.log), v);
  }

  /** The gate accepts a base version iff it is there at all (an absent field reads as -1), is not from the
      future, and every entry after it, which is what the fold needs, is among the last `limit` ones. */
  lemma GateExact(d: Doc, base: int)
    requires ValidDoc(d)
    ensures Accepts(d, base) <==>
            0 <= base <= Version(d)
            && forall k :: 0 <= k < |d.log| && d.log[k].serverVersion > base ==> |d.log| - d.limit <= k
  {
    if 0 <= base < HistoryStart(d) {
      assert d.log[base].serverVersion > base;
    }
  }

  /** An operation in range of the text it was written against is recorded as its fold, unclamped. */
  lemma InRangeIsOnlyFolded(d: Doc, base: nat, op: Operation)
    requires ValidDoc(d) && base <= Version(d) && InRange(op, |TextOf(d, base)|)
    ensures Ordered(d.initial, Ops(d.log), base, op) == Fold(op, Ops(d.log), base, Version(d))
  {
    FoldKeepsRange(d.initial, Ops(d.log), op, base, Version(d));
  }

  // ----- What the answers say -----

  /** A snapshot carries the text of the version it names, and tells the reader which base versions the gate
      accepts. */
  ghost predicate Describes(d: Doc, m: ServerMessage) {
    && m.DocState? && 0 <= m.version <= Version(d) && m.content == Some(TextOf(d, m.version))
    && forall b :: m.historyStartVersion <= b <= m.version <==> Accepts(d, b)
  }

  lemma SnapshotDescribes(d: Doc)
    requires ValidDoc(d)
    ensures Describes(d, StateMessage(d))
  {
  }

  /** A resynchronisation tells the submitter which base versions it could have used, and on which side of them
      its own was; the snapshot that follows says the same. */
  lemma ResyncDescribes(d: Doc, clientId: string, opId: string, base: int, op: Option<Operation>)
    requires ValidDoc(d) && Process(d, clientId, opId, base, op).1.Resync?
    ensures var Resync(m, state) := Process(d, clientId, opId, base, op).1;
            && m.ResyncRequired? && m.opId == opId && Describes(d, state)
            && (forall b :: m.historyStartVersion <= b <= m.serverVersion <==> Accepts(d, b))
            && !Accepts(d, base)
            && (m.reason == "operation history expired" <==> forall b :: Accepts(d, b) ==> base < b)
            && (m.reason == "client version is ahead of server" <==> forall b :: Accepts(d, b) ==> b < base)
  {
    assert Accepts(d, Version(d)) && Accepts(d, HistoryStart(d));
    assert "operation history expired"[0] != "client version is ahead of server"[0];
  }

  /** A refusal names the operation and what is wrong with it. */
  lemma RefusalExplains(d: Doc, clientId: string, opId: string, base: int, op: Option<Operation>)
    requires Process(d, clientId, opId, base, op).1.Refused?
    ensures var m := Process(d, clientId, opId, base, op).1.error;
            && m.Error? && m.opId == opId
            && (m.message == "invalid operation" <==> op == None || op.value.kind == Invalid)
            && (m.message == "insert operation requires one UTF-8 character" <==>
                  op.Some? && op.value.kind == Insert && |op.value.ch| != 1)
  {
    assert "invalid operation"[2] != "insert operation requires one UTF-8 character"[2];
  }

  /** What was submitted, and what became of it, is what the newest entry, the ACK, the REMOTE_OP and the snapshot
      for the save process say. */
  lemma AnswersTellEntry(d: Doc, clientId: string, opId: string, base: int, op: Option<Operation>)
    requires ValidDoc(d) && Process(d, clientId, opId, base, op).1.Processed?
    ensures var (d', r) := Process(d, clientId, opId, base, op);
            && Version(d') == Version(d) + 1
            && var v, e := Version(d'), d'.log[Version(d)];
               && (e.clientId, e.opId, e.baseVersion) == (clientId, opId, base)
               && Some(e.originalOp) == op && e.serverVersion == v
               && r.ack.Ack? && (r.ack.clientId, r.ack.opId, r.ack.baseVersion) == (clientId, opId, base)
               && r.ack.originalOp == op && r.ack.op == Some(e.op) && r.ack.serverVersion == r.ack.version == v
               && r.remote.RemoteOp? && (r.remote.clientId, r.remote.opId) == (clientId, opId)
               && r.remote.op == Some(e.op) && r.remote.serverVersion == r.remote.version == v
               && r.snapshotVersion == v && r.snapshotContent == TextOf(d', v) == ApplyOp(TextOf(d, v - 1), e.op)
  {
    ProcessKeepsValid(d, clientId, opId, base, op);
  }

  // ----- The document itself -----

  class Document {
    var text: string
    var version: int
    var historyStartVersion: int
    const historyLimit: nat
    var historyCount: nat
    const history: array<HistoryEntry>

    ghost const initialText: string
    ghost var log: seq<HistoryEntry>

    /** The array holds exactly the last entries of `log` that fit. */
    ghost predicate Holds(log: seq<HistoryEntry>)
      reads this, history
    {
      && historyLimit == history.Length > 0
      && historyCount == Min(historyLimit, |log|)
      && historyStartVersion == |log| - historyCount
      && Numbered(log)
      && forall i :: 0 <= i < historyCount ==> history[i] == log[|log| - historyCount + i]
    }

    ghost predicate Valid()
      reads this, history
    {
      && Holds(log)
      && version == |log|
      && text == Text(View())
      && ValidDoc(View())
    }

    ghost function View(): Doc
      reads this
    {
      Doc(initialText, historyLimit, log)
    }

    constructor (initial: string, limit: nat)
      ensures Valid() && fresh(history)
      ensures View() == Doc(initial, if limit == 0 then DEFAULT_HISTORY_LIMIT else limit, [])
    {
      text := initial;
      version := 0;
      historyStartVersion := 0;
      historyLimit := if limit == 0 then DEFAULT_HISTORY_LIMIT else limit;
      historyCount := 0;
      history := new HistoryEntry[if limit == 0 then DEFAULT_HISTORY_LIMIT else limit];
      initialText := initial;
      log := [];
    }

    method Snapshot() returns (snapshot: ServerMessage)
      requires Valid()
      ensures snapshot == StateMessage(View())
    {
      snapshot := DocState(version, historyStartVersion, Some(text));
    }

    /** Drops the oldest entry when the array is full, by moving the others down one place. */
    method AppendHistory(entry: HistoryEntry)
      requires Holds(log) && entry.serverVersion == |log| + 1
      modifies this`historyCount, this`historyStartVersion, this`log, history
      ensures log == old(log) + [entry] && Holds(log)
    {
      if historyCount == historyLimit {
        forall i | 0 <= i < historyLimit - 1 {
          history[i] := history[i + 1];
        }
        historyCount := historyCount - 1;
      }
      history[historyCount] := entry;
      historyCount := historyCount + 1;
      historyStartVersion := history[0].serverVersion - 1;
      if historyStartVersion < 0 {
        historyStartVersion := 0;
      }
      log := log + [entry];
    }

    /** The fold over the trimmed array is the fold over the whole log. */
    method FoldHistory(base: int, op: Operation) returns (transformed: Operation)
      requires Holds(log) && historyStartVersion <= base <= |log|
      ensures transformed == Fold(op, Ops(log), base, |log|)
    {
      transformed := op;
      ghost var start := |log| - historyCount;
      for i := 0 to historyCount
        invariant transformed == Fold(op, Ops(log), base, if start + i < base then base else start + i)
      {
        assert history[i] == log[start + i] && history[i].serverVersion == start + i + 1;
        if history[i].serverVersion > base {
          transformed := Transform(transformed, history[i].op);
        }
      }
    }

    /** The branch of an accepted operation. */
    method Accept(clientId: string, opId: string, baseVersion: int, op: Operation, ghost entry: HistoryEntry)
      returns (result: ProcessResult)
      requires Valid() && Acceptable(op) && historyStartVersion <= baseVersion <= version
      requires entry == EntryFor(View(), clientId, opId, baseVersion, op)
      modifies this, history
      ensures Valid() && View() == old(View()).(log := old(log) + [entry])
      ensures result == Processed(AckFor(entry), RemoteFor(entry), text, version)
    {
      AppendKeepsValid(View(), entry, baseVersion, op);
      var transformed := FoldHistory(baseVersion, op);
      transformed := Normalize(transformed, |text|);
      version := version + 1;
      text := ApplyOp(text, transformed);
      AppendHistory(HistoryEntry(version, clientId, opId, baseVersion, op, transformed));
      result := Processed(
        Ack(clientId, opId, baseVersion, version, version, Some(transformed), Some(op)),
        RemoteOp(clientId, opId, version, version, Some(transformed)),
        text, version);
    }

    /** Bounded history refines the full log: on every state the call does what `Process` does on the
        unbounded log, and produces the same messages. */
    method ProcessOperation(clientId: string, opId: string, baseVersion: int, op: Option<Operation>)
      returns (result: ProcessResult)
      requires Valid()
      modifies this, history
      ensures Valid()
      ensures (View(), result) == Process(old(View()), clientId, opId, baseVersion, op)
    {
      if op == None || op.value.kind == Invalid {
        return Refused(Error(opId, "invalid operation"));
      }
      if op.value.kind == Insert && |op.value.ch| != 1 {
        return Refused(Error(opId, "insert operation requires one UTF-8 character"));
      }
      if baseVersion < historyStartVersion || baseVersion > version {
        var reason := if baseVersion < historyStartVersion then "operation history expired"
                      else "client version is ahead of server";
        return Resync(ResyncRequired(opId, reason, version, historyStartVersion),
                      DocState(version, historyStartVersion, Some(text)));
      }
      result := Accept(clientId, opId, baseVersion, op.value, EntryFor(View(), clientId, opId, baseVersion, op.value));
    }
  }
}
