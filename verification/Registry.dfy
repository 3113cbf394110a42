/** Client ids over all runs, good or not: names stay distinct, so a broadcast leaves out exactly the
    submitter, and a connection that goes takes exactly its own name with it. */
module Registry {
  import opened Messages
  import opened Documents
  import opened Systems
  import opened Convergence

  function NamesOf(slots: seq<Slot>): seq<string> {
    seq(|slots|, k requires 0 <= k < |slots| => slots[k].id)
  }

  /** The names after a step: a newcomer comes first, a leaver goes, and nobody is renamed. */
  lemma NamesAfter(s: System, step: Step)
    requires Enabled(s, step)
    ensures var names, after := NamesOf(s.slots), NamesOf(Perform(s, step).slots);
            match step
            case Join(requested) => after == [ChooseId(IdsOf(s.slots), requested, s.nextClientNumber).0] + names
            case Leave(i) => after == names[..i] + names[i + 1..]
            case TypeOp(_, _) => after == names
            case Serve(_) => after == names
            case Deliver(_) => after == names
    ensures Perform(s, step).nextClientNumber
            == if step.Join? then ChooseId(IdsOf(s.slots), step.requested, s.nextClientNumber).1 else s.nextClientNumber
  {
    if step.Serve? {
      ServeRenamesNobody(s, step.i);
    }
  }

  lemma ServeRenamesNobody(s: System, i: nat)
    requires i < |s.slots| && CanServe(s.slots[i])
    ensures NamesOf(ServeSlot(s, i).slots) == NamesOf(s.slots)
    ensures ServeSlot(s, i).nextClientNumber == s.nextClientNumber
  {
    var slot := s.slots[i];
    match slot.client.outbox[slot.served]
    case RequestDoc =>
    case SubmitOp(_, opId, base, op) =>
      var (doc, r) := Process(s.doc, slot.id, opId, base, op);
      AnswerRenamesNobody(s, i, doc, r);
  }

  lemma AnswerRenamesNobody(s: System, i: nat, doc: Doc, r: ProcessResult)
    requires i < |s.slots|
    ensures NamesOf(Answer(s, i, Served(s.slots[i]), doc, r).slots) == NamesOf(s.slots)
    ensures Answer(s, i, Served(s.slots[i]), doc, r).nextClientNumber == s.nextClientNumber
  {
  }

  lemma StepKeepsDistinct(s: System, step: Step)
    requires Enabled(s, step) && DistinctIds(s.slots)
    ensures DistinctIds(Perform(s, step).slots)
  {
    NamesAfter(s, step);
    var names, t := NamesOf(s.slots), Perform(s, step);
    assert forall k :: 0 <= k < |t.slots| ==> NamesOf(t.slots)[k] == t.slots[k].id;
    if step.Join? {
      var id := ChooseId(IdsOf(s.slots), step.requested, s.nextClientNumber).0;
      forall k | 0 <= k < |names| ensures names[k] != id {
        assert s.slots[k].id in IdsOf(s.slots);
      }
    }
  }

  /** On every run from the start, whatever is requested, typed, lost or dropped, no two connections ever
      share an id. */
  lemma {:induction false} IdsAlwaysDistinct(s: System, steps: seq<Step>)
    requires DistinctIds(s.slots) && IsRun(s, steps)
    ensures DistinctIds(After(s, steps).slots)
    decreases steps
  {
    if steps != [] {
      StepKeepsDistinct(s, steps[0]);
      IdsAlwaysDistinct(Perform(s, steps[0]), steps[1..]);
    }
  }

  /** The number of an automatic name is never given twice, even when the connection that had it has gone: each
      join leaves the counter above the number it has given, and nothing sets it back. */
  lemma {:induction false} NumbersGoUp(s: System, steps: seq<Step>)
    requires IsRun(s, steps)
    ensures s.nextClientNumber <= After(s, steps).nextClientNumber
    decreases steps
  {
    if steps != [] {
      NamesAfter(s, steps[0]);
      NumbersGoUp(Perform(s, steps[0]), steps[1..]);
    }
  }

  lemma NumberedOnce(s: System, first: string, steps: seq<Step>, second: string)
    requires var t := Perform(s, Join(first)); IsRun(t, steps)
    requires first == "" || first in IdsOf(s.slots)
    requires var t := After(Perform(s, Join(first)), steps); second == "" || second in IdsOf(t.slots)
    ensures var t := After(Perform(s, Join(first)), steps);
            Perform(s, Join(first)).slots[0].id != Perform(t, Join(second)).slots[0].id
  {
    var one := Perform(s, Join(first));
    var t := After(one, steps);
    NumbersGoUp(one, steps);
    var j, k := FreeNumber(IdsOf(s.slots), s.nextClientNumber), FreeNumber(IdsOf(t.slots), t.nextClientNumber);
    assert one.slots[0].id == AutoName(j) && Perform(t, Join(second)).slots[0].id == AutoName(k) && j < k;
    if AutoName(j) == AutoName(k) {
      AutoNameInjective(j, k);
    }
  }

  lemma RunIdsDistinct(initial: string, limit: nat, steps: seq<Step>)
    requires IsRun(Start(initial, limit), steps)
    ensures DistinctIds(After(Start(initial, limit), steps).slots)
  {
    IdsAlwaysDistinct(Start(initial, limit), steps);
  }

  /** A broadcast reaches every connection but the submitter's, once. */
  lemma BroadcastSkipsSubmitter(slots: seq<Slot>, m: ServerMessage, i: nat, k: nat)
    requires DistinctIds(slots) && i < |slots| && k < |slots|
    ensures |Broadcast(slots, m, slots[i].id)| == |slots|
    ensures Broadcast(slots, m, slots[i].id)[k] == if k == i then slots[k] else Push(slots[k], [m])
  {
    assert k != i ==> slots[k].id != slots[i].id;
  }

  /** Once a connection has gone its id is free again. */
  lemma LeaverFreesItsId(s: System, i: nat)
    requires DistinctIds(s.slots) && i < |s.slots|
    ensures s.slots[i].id !in IdsOf(Perform(s, Leave(i)).slots)
    ensures ChooseId(IdsOf(Perform(s, Leave(i)).slots), s.slots[i].id, s.nextClientNumber)
            == if s.slots[i].id != "" then (s.slots[i].id, s.nextClientNumber)
               else Automatic(IdsOf(Perform(s, Leave(i)).slots), s.nextClientNumber)
  {
    var after := Perform(s, Leave(i)).slots;
    forall k | 0 <= k < |after| ensures after[k].id != s.slots[i].id {
      assert after[k] == s.slots[if k < i then k else k + 1];
    }
  }
}
