/** What edits that had to wait come to mean, on every polite run: at the version they are sent on, and when
    they are served. */
module Meanings {
  import opened Operations
  import opened Intention
  import opened Messages
  import opened Documents
  import opened Clients
  import opened Systems
  import opened Carrying
  import opened PoliteRuns
  import opened Fidelity
  import opened QueuedEdits
  import opened Rebasing
  import opened Histories

  // ----- At the version it is sent on -----

  /** An operation typed behind whatever was pending, exactly, on every polite run. Bound to the version it is
      sent on, a delete removes the character of the projected text it was typed for, and nothing else, iff it is
      the delete that follows that character; an insert lands in the gap it was typed for iff every character of
      that text that is still there is on the same side of its position as it was. */
  lemma WaitingExact(initial: string, limit: nat, steps: seq<Step>, k: nat, n: nat)
    requires PoliteRun(Start(initial, limit), steps)
    ensures IsRun(Start(initial, limit), steps)
    ensures var s := After(Start(initial, limit), steps);
            Sent(s, k, n) ==>
              var d, slot, c := s.doc, s.slots[k], Then(s.slots[k], n);
              var m, id, op, ahead := slot.client.outbox[PlaceOf(slot, n)], slot.id, slot.events[n].op, PendingOps(c);
              && m.SubmitOp? && m.op == Some(op) && 0 <= c.version <= m.baseVersion <= Version(d)
              && var u, w := c.version, m.baseVersion;
                 && |Own(d.log, id, u, w)| == |ahead|
                 && (forall x :: x in Projection(d, id, ahead, u, w) ==> Known(d, x, u, w))
                 && (op.kind == Delete && op.pos < |Projection(d, id, ahead, u, w)| ==>
                       (KeepsCharacter(d, id, ahead, op, u, w) <==> FollowsTheCharacter(d, id, ahead, op, u, w)))
                 && (op.kind == Insert ==>
                       (KeepsGap(d, id, ahead, op, u, w) <==> FollowsTheGap(d, id, ahead, op, u, w)))
  {
    Traced(initial, limit, steps);
    var s := After(Start(initial, limit), steps);
    if Sent(s, k, n) {
      var d, slot, c := s.doc, s.slots[k], Then(s.slots[k], n);
      var id, op, ahead := slot.id, slot.events[n].op, PendingOps(c);
      SentWhenOthersLogged(d, slot, n);
      var w := slot.client.outbox[PlaceOf(slot, n)].baseVersion;
      ProjectionKnown(d, id, ahead, c.version, w);
      if op.kind == Delete && op.pos < |Projection(d, id, ahead, c.version, w)| {
        QueuedDeleteExact(d, id, ahead, op, c.version, w);
      } else if op.kind == Insert {
        QueuedInsertExact(d, id, ahead, op, c.version, w);
      }
    }
  }

  // ----- Edits whose predecessors kept their place -----

  /** Where no entry of the connection comes in between, the next edit expected is only folded. */
  lemma {:induction false} ExpectedHead(log: seq<HistoryEntry>, id: string, all: seq<Operation>, u: nat, b: nat, k: nat)
    requires u <= b <= k <= |log| && Own(log, id, b, k) == [] && Expected(log, id, all, u, b) != []
    ensures Expected(log, id, all, u, k) != []
    ensures Expected(log, id, all, u, k)[0] == Fold(Expected(log, id, all, u, b)[0], Ops(log), b, k)
  {
    if b < k {
      ExpectedHead(log, id, all, u, b, k - 1);
    }
  }

  lemma {:induction false} FoldSame(a: Operation, b: Operation, log: seq<Operation>, u: nat, v: nat)
    requires u <= v <= |log| && SameEdit(a, b)
    ensures SameEdit(Fold(a, log, u, v), Fold(b, log, u, v))
  {
    if u < v {
      FoldSame(a, b, log, u, v - 1);
    }
  }

  lemma {:induction false} LoggedAsOrdered(initial: string, log: seq<HistoryEntry>, k: nat)
    requires AllOrdered(initial, log) && k < |log|
    ensures var e, ops := log[k], Ops(log);
            && 0 <= e.baseVersion <= k
            && e.op == Normalize(Fold(e.originalOp, ops, e.baseVersion, k), |TextAt(initial, ops, k)|)
  {
    var earlier := log[..|log| - 1];
    assert Ops(earlier) <= Ops(log);
    if k < |log| - 1 {
      LoggedAsOrdered(initial, earlier, k);
    }
    FoldPrefix(log[k].originalOp, Ops(earlier), Ops(log), log[k].baseVersion, k);
    TextAtPrefix(initial, Ops(earlier), Ops(log), k);
  }

  /** The edit logged as entry k was sent where it is expected: what its user typed is, at the version it was
      bound to, what folding it from version u on gives. (One that was in flight at version u was sent before:
      nothing served since has moved it.) */
  predicate InPlace(d: Doc, id: string, all: seq<Operation>, u: nat, k: nat)
    requires k < Version(d)
  {
    var e := d.log[k];
    && 0 <= e.baseVersion <= Version(d) && u <= Version(d) && InRange(e.originalOp, |TextOf(d, e.baseVersion)|)
    && var b := Max(u, e.baseVersion);
       && Expected(d.log, id, all, u, b) != []
       && SameEdit(Fold(e.originalOp, Ops(d.log), e.baseVersion, b), Expected(d.log, id, all, u, b)[0])
  }

  lemma EntryAsExpected(d: Doc, id: string, all: seq<Operation>, u: nat, k: nat)
    requires ValidDoc(d) && AllOrdered(d.initial, d.log) && u <= k < Version(d) && InPlace(d, id, all, u, k)
    requires AloneSince(d, id, u, k)
    ensures Expected(d.log, id, all, u, k) != [] && SameEdit(d.log[k].op, Expected(d.log, id, all, u, k)[0])
  {
    var e, ops := d.log[k], Ops(d.log);
    var b := Max(u, e.baseVersion);
    LoggedAsOrdered(d.initial, d.log, k);
    ValidLogEarlier(d.initial, ops, k, |ops|);
    FoldKeepsRange(d.initial, ops, e.originalOp, e.baseVersion, k);
    FoldCompose(e.originalOp, ops, e.baseVersion, b, k);
    FoldSame(Fold(e.originalOp, ops, e.baseVersion, b), Expected(d.log, id, all, u, b)[0], ops, b, k);
    ExpectedHead(d.log, id, all, u, b, k);
  }

  /** It was bound to a version since which nothing else of the connection was logged. */
  predicate AloneSince(d: Doc, id: string, u: nat, k: nat)
    requires k < Version(d)
  {
    0 <= d.log[k].baseVersion <= k && Own(d.log, id, Max(u, d.log[k].baseVersion), k) == []
  }

  lemma {:induction false} InPlaceAsExpected(d: Doc, id: string, all: seq<Operation>, u: nat, v: nat)
    requires ValidDoc(d) && AllOrdered(d.initial, d.log) && u <= v <= Version(d)
    requires forall k :: u <= k < v && d.log[k].clientId == id ==> InPlace(d, id, all, u, k) && AloneSince(d, id, u, k)
    ensures LoggedAsExpected(d.log, id, all, u, v)
  {
    if u < v {
      InPlaceAsExpected(d, id, all, u, v - 1);
      if d.log[v - 1].clientId == id {
        EntryAsExpected(d, id, all, u, v - 1);
      }
    }
  }

  /** From the version an operation was bound to until it was logged, nothing else of its connection was. */
  lemma NothingOwnMeanwhile(d: Doc, slot: Slot, u: nat, k: nat)
    requires HistoryInv(d, slot) && slot.joinedAt <= u <= k < Version(d) && d.log[k].clientId == slot.id
    requires AllOrdered(d.initial, d.log)
    ensures AloneSince(d, slot.id, u, k)
  {
    LoggedAsOrdered(d.initial, d.log, k);
    var base := d.log[k].baseVersion;
    assert LoggedAsSent(d, slot, k) && SentInTurn(d, slot, Entries(d, slot, k));
    EntriesMonotone(d, slot, base, k);
    if base < u {
      OwnSplits(d.log, slot.id, base, u, k);
    }
  }

  /** An operation typed behind others, all of them in range of the projected text and logged in place. */
  ghost predicate BehindInPlace(s: System, k: nat, n: nat) {
    && Sent(s, k, n)
    && var d, slot, c := s.doc, s.slots[k], Then(s.slots[k], n);
       var m, id, op, ahead := slot.client.outbox[PlaceOf(slot, n)], slot.id, slot.events[n].op, PendingOps(c);
       && m.SubmitOp? && 0 <= c.version <= m.baseVersion <= Version(d)
       && var u, w := c.version, m.baseVersion;
          && |Own(d.log, id, u, w)| == |ahead|
          && FitAll(Ids(d, u), ahead, Own(d.log, id, u, w))
          && (op.kind == Insert || op.kind == Delete) && InRange(op, |Projection(d, id, ahead, u, w)|)
          && forall j :: u <= j < w && d.log[j].clientId == id ==> InPlace(d, id, ahead + [op], u, j)
  }

  lemma BehindIsQueued(s: System, k: nat, n: nat)
    requires TracedInv(s) && BehindInPlace(s, k, n)
    ensures var d, slot, c := s.doc, s.slots[k], Then(s.slots[k], n);
            var m := slot.client.outbox[PlaceOf(slot, n)];
            Queued(d, slot.id, PendingOps(c), slot.events[n].op, c.version, m.baseVersion)
  {
    var d, slot, c := s.doc, s.slots[k], Then(s.slots[k], n);
    var m, id, op, ahead := slot.client.outbox[PlaceOf(slot, n)], slot.id, slot.events[n].op, PendingOps(c);
    var u, w := c.version, m.baseVersion;
    assert Settled(d, slot, c);
    forall j | u <= j < w && d.log[j].clientId == id ensures AloneSince(d, id, u, j) {
      NothingOwnMeanwhile(d, slot, u, j);
    }
    InPlaceAsExpected(d, id, ahead + [op], u, w);
  }

  /** An operation typed behind others that kept their place, exactly, on every polite run. Bound to the version
      it is sent on, a delete removes the character of the projected text it was typed for iff folding it over
      the foreign operations served in between leaves it as it is; an insert lands in the gap it was typed for
      iff no character of that text stands between where it lands and where its fold would. */
  lemma BehindOthersExact(initial: string, limit: nat, steps: seq<Step>, k: nat, n: nat)
    requires PoliteRun(Start(initial, limit), steps)
    ensures IsRun(Start(initial, limit), steps)
    ensures var s := After(Start(initial, limit), steps);
            BehindInPlace(s, k, n) ==>
              var d, slot, c := s.doc, s.slots[k], Then(s.slots[k], n);
              var id, op, ahead := slot.id, slot.events[n].op, PendingOps(c);
              var u, w := c.version, slot.client.outbox[PlaceOf(slot, n)].baseVersion;
              && (op.kind == Delete ==>
                    (KeepsCharacter(d, id, ahead, op, u, w) <==> FoldLeavesIt(d, id, ahead, op, u, w)))
              && (op.kind == Insert ==>
                    && (LandsAsFolded(d, id, ahead, op, u, w) <==> FoldLeavesIt(d, id, ahead, op, u, w))
                    && (KeepsGap(d, id, ahead, op, u, w) <==> NothingProjectedBetween(d, id, ahead, op, u, w)))
  {
    Traced(initial, limit, steps);
    var s := After(Start(initial, limit), steps);
    if BehindInPlace(s, k, n) {
      BehindIsQueued(s, k, n);
      var d, slot, c := s.doc, s.slots[k], Then(s.slots[k], n);
      var op, w := slot.events[n].op, slot.client.outbox[PlaceOf(slot, n)].baseVersion;
      if op.kind == Delete {
        FoldedDeleteExact(d, slot.id, PendingOps(c), op, c.version, w);
      } else {
        FoldedInsertExact(d, slot.id, PendingOps(c), op, c.version, w);
      }
    }
  }

  // ----- When it is served -----

  /** Out of range stays out of range: there a delete does nothing and an insert goes to the end. */
  lemma {:induction false} OutStaysOut(initial: string, log: seq<Operation>, op: Operation, w: nat, v: nat)
    requires w <= v <= |log| && ValidLog(initial, log, v) && op.kind in {Insert, Delete}
    requires !InRange(op, |TextAt(initial, log, w)|)
    ensures var f, len := Fold(op, log, w, v), |TextAt(initial, log, v)|; f.kind == op.kind && !InRange(f, len)
    ensures var f := Fold(Normalize(op, |TextAt(initial, log, w)|), log, w, v);
            if op.kind == Insert then f.kind == Insert && f.pos == |TextAt(initial, log, v)| else f.kind == Noop
  {
    if w < v {
      OutStaysOut(initial, log, op, w, v - 1);
    }
  }

  /** Clamping first and folding then records the same edit. */
  lemma NormalizeThenFold(initial: string, log: seq<Operation>, op: Operation, w: nat, v: nat)
    requires w <= v <= |log| && ValidLog(initial, log, v) && op.kind in {Insert, Delete}
    ensures SameEdit(Normalize(Fold(op, log, w, v), |TextAt(initial, log, v)|),
                     Fold(Normalize(op, |TextAt(initial, log, w)|), log, w, v))
  {
    if InRange(op, |TextAt(initial, log, w)|) {
      FoldKeepsRange(initial, log, op, w, v);
    } else {
      OutStaysOut(initial, log, op, w, v);
    }
  }

  /** Following a character to version w and folding from there is following it further. */
  lemma FollowFurther(d: Doc, x: CharId, u: nat, w: nat, v: nat)
    requires u <= w <= v <= Version(d) && Known(d, x, u, w)
    ensures Known(d, x, u, v) && SameEdit(Follow(d, x, u, v), Fold(Follow(d, x, u, w), Ops(d.log), w, v))
  {
    var ids, ops := IdsAt(|d.initial|, Ops(d.log), u), Ops(d.log);
    if x in ids {
      FoldCompose(DeleteAt(IndexOf(ids, x)), ops, u, w, v);
    } else if d.log[x.version - 1].op.kind == Insert {
      FoldCompose(DeleteAt(d.log[x.version - 1].op.pos), ops, x.version, w, v);
    } else {
      FoldKeepsKind(Follow(d, x, u, w), ops, w, v);
    }
  }

  /** What the server records for a delete that was bound to version w. */
  lemma DeleteRecordedExact(d: Doc, x: CharId, u: nat, w: nat, op: Operation)
    requires ValidDoc(d) && u <= w <= Version(d) && Known(d, x, u, w) && op.kind == Delete
    ensures Known(d, x, u, Version(d))
    ensures var ids, e := Ids(d, Version(d)), Ordered(d.initial, Ops(d.log), w, op);
            && e.kind in {Delete, Noop}
            && (Splice(ids, e, []) == Without(ids, x) <==> SameEdit(e, Follow(d, x, u, Version(d))))
            && (Splice(Ids(d, w), op, []) == Without(Ids(d, w), x) ==> Splice(ids, e, []) == Without(ids, x))
  {
    var ops, v := Ops(d.log), Version(d);
    var e := Ordered(d.initial, ops, w, op);
    FoldKeepsKind(op, ops, w, v);
    FollowFurther(d, x, u, w, v);
    NormalizeInRange(Fold(op, ops, w, v), |Text(d)|);
    IdsAtLength(d.initial, ops, v);
    assert Normalize(e, |Ids(d, v)|) == e;
    DeleteFollowed(d, x, u, v, e);
    DeleteFollowed(d, x, u, w, op);
    ValidLogEarlier(d.initial, ops, w, v);
    IdsAtLength(d.initial, ops, w);
    NormalizeThenFold(d.initial, ops, op, w, v);
    if SameEdit(Normalize(op, |Ids(d, w)|), Follow(d, x, u, w)) {
      FoldSame(Normalize(op, |Ids(d, w)|), Follow(d, x, u, w), ops, w, v);
    }
  }

  function Shifted(j: nat, q: nat): nat {
    if j < q then j else j + 1
  }

  lemma ShiftedAt(ids: seq<CharId>, q: nat, x: CharId, j: nat)
    requires q <= |ids| && j < |ids|
    ensures (ids[..q] + [x] + ids[q..])[Shifted(j, q)] == ids[j]
  {
  }

  lemma UnshiftedAt(ids: seq<CharId>, q: nat, x: CharId, j: nat)
    requires q <= |ids| && j <= |ids| && j != q
    ensures var k := if j < q then j else j - 1; k < |ids| && (ids[..q] + [x] + ids[q..])[j] == ids[k]
  {
  }

  lemma CutWithNewcomer(t: seq<CharId>, p: nat, ids: seq<CharId>, q: nat, x: CharId)
    requires q <= |ids| && x !in t
    ensures SameCut(t, p, ids[..q] + [x] + ids[q..], q) <==> SameCut(t, p, ids, q)
  {
    var more := ids[..q] + [x] + ids[q..];
    if SameCut(t, p, more, q) {
      forall i, j | 0 <= i < |t| && 0 <= j < |ids| && t[i] == ids[j] ensures i < p <==> j < q {
        ShiftedAt(ids, q, x, j);
        assert t[i] == more[Shifted(j, q)];
      }
    }
    if SameCut(t, p, ids, q) {
      forall i, j | 0 <= i < |t| && 0 <= j < |more| && t[i] == more[j] ensures i < p <==> j < q {
        assert more[q] == x && t[i] in t;
        UnshiftedAt(ids, q, x, j);
      }
    }
  }

  /** A gap that separates the known characters in version w does so, folded, in the current one. */
  lemma GapCarried(d: Doc, t: seq<CharId>, p: nat, u: nat, w: nat, op: Operation)
    requires ValidDoc(d) && u <= w <= Version(d) && op.kind == Insert && op.pos <= |Ids(d, w)|
    requires (forall i :: 0 <= i < |t| ==> Known(d, t[i], u, w)) && SameCut(t, p, Ids(d, w), op.pos)
    ensures SameCut(t, p, Ids(d, Version(d)), Fold(op, Ops(d.log), w, Version(d)).pos)
  {
    var n, ops, v := |d.initial|, Ops(d.log), Version(d);
    ValidLogEarlier(d.initial, ops, w, v);
    IdsAtLength(d.initial, ops, w);
    InsertIntention(d.initial, ops, op, w, v);
    forall x | x in t && x in Ids(d, v) ensures x in Ids(d, w) {
      var i :| 0 <= i < |t| && t[i] == x;
      if x in IdsAt(n, ops, u) {
        IdsAtBorn(n, ops, u, x);
      }
      DeletedForever(n, ops, w, v, x);
    }
    CutsCompose(t, p, Ids(d, w), op.pos, Ids(d, v), Fold(op, ops, w, v).pos);
  }

  /** The gap q of version v, and of the version that the insert at q makes of it. */
  lemma InsertedGap(d: Doc, t: seq<CharId>, p: nat, u: nat, q: nat)
    requires ValidDoc(d) && u <= Version(d) && q <= |Ids(d, Version(d))|
    requires forall i :: 0 <= i < |t| ==> Known(d, t[i], u, Version(d))
    ensures var ids := Ids(d, Version(d));
            var after := ids[..q] + [CharId.Typed(Version(d) + 1)] + ids[q..];
            && (SameCut(t, p, after, q) <==> SameCut(t, p, ids, q))
            && (SameCut(t, p, after, q) <==>
                  forall i :: 0 <= i < |t| && Follow(d, t[i], u, Version(d)).kind == Delete ==>
                                (i < p <==> Follow(d, t[i], u, Version(d)).pos < q))
  {
    FreshAt(d, u);
    GapFollowed(d, t, p, u, Version(d), q);
    CutWithNewcomer(t, p, Ids(d, Version(d)), q, CharId.Typed(Version(d) + 1));
  }

  lemma InsertRecorded(d: Doc, w: nat, op: Operation)
    requires ValidDoc(d) && w <= Version(d) && op.kind == Insert
    ensures var ids, e := Ids(d, Version(d)), Ordered(d.initial, Ops(d.log), w, op);
            && e.kind == Insert && e.pos <= |ids|
            && Normalize(op, |Ids(d, w)|).kind == Insert && Normalize(op, |Ids(d, w)|).pos == Min(op.pos, |Ids(d, w)|)
            && e.pos == Fold(Normalize(op, |Ids(d, w)|), Ops(d.log), w, Version(d)).pos
  {
    var ops, v := Ops(d.log), Version(d);
    FoldKeepsKind(op, ops, w, v);
    NormalizeInRange(Fold(op, ops, w, v), |Text(d)|);
    ValidLogEarlier(d.initial, ops, w, v);
    IdsAtLength(d.initial, ops, v);
    IdsAtLength(d.initial, ops, w);
    NormalizeThenFold(d.initial, ops, op, w, v);
  }

  /** The operation connection i typed at its event n is the next to be served. */
  ghost predicate NextIs(s: System, i: nat, n: nat) {
    && i < |s.slots| && CanServe(s.slots[i]) && Polite(s, Serve(i))
    && n < |s.slots[i].events| && s.slots[i].events[n].Typed?
    && s.slots[i].served == PlaceOf(s.slots[i], n)
  }

  /** d' is d with `op`, bound to version w, recorded behind everything since. */
  ghost predicate Records(d: Doc, d': Doc, w: nat, op: Operation)
    requires w <= Version(d)
  {
    && Version(d') == Version(d) + 1
    && d'.log[Version(d)].op == Ordered(d.initial, Ops(d.log), w, op)
    && Ids(d', Version(d')) == Splice(Ids(d, Version(d)), d'.log[Version(d)].op, [CharId.Typed(Version(d'))])
  }

  lemma NextRecords(d: Doc, id: string, opId: string, w: nat, op: Operation)
    requires ValidDoc(d) && Accepts(d, w) && Acceptable(op)
    ensures Records(d, Next(d, id, opId, w, op), w, op)
  {
    var d' := Next(d, id, opId, w, op);
    OpsAppend(d.log, EntryFor(d, id, opId, w, op));
    IdsGrow(d, d', Version(d));
  }

  lemma ServesNext(s: System, i: nat, n: nat)
    requires TracedInv(s) && NextIs(s, i, n) && Acceptable(s.slots[i].events[n].op)
    ensures var slot, d, c := s.slots[i], s.doc, Then(s.slots[i], n);
            var m := slot.client.outbox[slot.served];
            && m.SubmitOp? && 0 <= c.version <= m.baseVersion <= Version(d)
            && |Own(d.log, slot.id, c.version, m.baseVersion)| == |PendingOps(c)|
            && Records(d, ServeSlot(s, i).doc, m.baseVersion, slot.events[n].op)
  {
    var slot := s.slots[i];
    var m := slot.client.outbox[slot.served];
    SentWhenOthersLogged(s.doc, slot, n);
    NextRecords(s.doc, slot.id, m.opId, m.baseVersion, slot.events[n].op);
  }

  /** Serving the delete makes d' of d. It removes exactly the character of the projected text it was typed for
      iff what is recorded is the delete that follows that character; and it does if the delete kept its meaning
      when it was sent. */
  ghost predicate DeleteServed(d: Doc, d': Doc, id: string, ahead: seq<Operation>, op: Operation, u: nat, w: nat)
    requires u <= w <= Version(d) < Version(d') && |Own(d.log, id, u, w)| == |ahead|
    requires op.pos < |Projection(d, id, ahead, u, w)|
  {
    var v, meant := Version(d), Projection(d, id, ahead, u, w)[op.pos];
    var removed := Ids(d', v + 1) == Without(Ids(d, v), meant);
    && Known(d, meant, u, v)
    && (removed <==> SameEdit(d'.log[v].op, Follow(d, meant, u, v)))
    && (KeepsCharacter(d, id, ahead, op, u, w) ==> removed)
  }

  /** Serving the insert puts its character into the gap of the projected text it was typed for iff every
      character of that text that is still there is on the same side of where it lands as it was; and it does if
      the insert kept its meaning when it was sent. */
  ghost predicate InsertServed(d: Doc, d': Doc, id: string, ahead: seq<Operation>, op: Operation, u: nat, w: nat)
    requires u <= w <= Version(d) < Version(d') && |Own(d.log, id, u, w)| == |ahead|
  {
    var v, t, p := Version(d), Projection(d, id, ahead, u, w), d'.log[Version(d)].op.pos;
    var after := Ids(d', v + 1);
    && p < |after| && after[p] == CharId.Typed(v + 1)
    && (forall j :: 0 <= j < |t| ==> Known(d, t[j], u, v))
    && (SameCut(t, op.pos, after, p) <==>
          forall j :: 0 <= j < |t| && Follow(d, t[j], u, v).kind == Delete ==>
                        (j < op.pos <==> Follow(d, t[j], u, v).pos < p))
    && (KeepsGap(d, id, ahead, op, u, w) ==> SameCut(t, op.pos, after, p))
  }

  lemma DeleteServes(d: Doc, d': Doc, id: string, ahead: seq<Operation>, op: Operation, u: nat, w: nat)
    requires ValidDoc(d) && u <= w <= Version(d) && |Own(d.log, id, u, w)| == |ahead| && Records(d, d', w, op)
    requires op.kind == Delete && op.pos < |Projection(d, id, ahead, u, w)|
    ensures DeleteServed(d, d', id, ahead, op, u, w)
  {
    var t := Projection(d, id, ahead, u, w);
    ProjectionKnown(d, id, ahead, u, w);
    assert t[op.pos] in t;
    DeleteRecordedExact(d, t[op.pos], u, w, op);
  }

  lemma InsertServes(d: Doc, d': Doc, id: string, ahead: seq<Operation>, op: Operation, u: nat, w: nat)
    requires ValidDoc(d) && u <= w <= Version(d) && |Own(d.log, id, u, w)| == |ahead| && Records(d, d', w, op)
    requires op.kind == Insert
    ensures InsertServed(d, d', id, ahead, op, u, w)
  {
    var t := Projection(d, id, ahead, u, w);
    ProjectionKnown(d, id, ahead, u, w);
    forall j | 0 <= j < |t| ensures Known(d, t[j], u, w) && Known(d, t[j], u, Version(d)) {
      assert t[j] in t;
      FollowFurther(d, t[j], u, w, Version(d));
    }
    InsertRecorded(d, w, op);
    InsertedGap(d, t, op.pos, u, d'.log[Version(d)].op.pos);
    if KeepsGap(d, id, ahead, op, u, w) {
      GapCarried(d, t, op.pos, u, w, Normalize(op, |Ids(d, w)|));
    }
  }

  /** The intention theorem for edits that had to wait, on every polite run, whatever was pending when they were
      typed and whatever has become of it: what serving them does to the text is exactly as `DeleteServed` and
      `InsertServed` say. */
  lemma WaitingServed(initial: string, limit: nat, steps: seq<Step>, i: nat, n: nat)
    requires PoliteRun(Start(initial, limit), steps)
    ensures IsRun(Start(initial, limit), steps)
    ensures var s := After(Start(initial, limit), steps);
            NextIs(s, i, n) && Acceptable(s.slots[i].events[n].op) ==>
              var d, d', slot, c := s.doc, ServeSlot(s, i).doc, s.slots[i], Then(s.slots[i], n);
              var m, op, ahead := slot.client.outbox[slot.served], slot.events[n].op, PendingOps(c);
              && m.SubmitOp? && 0 <= c.version <= m.baseVersion <= Version(d) < Version(d')
              && |Own(d.log, slot.id, c.version, m.baseVersion)| == |ahead|
              && (op.kind == Delete && op.pos < |Projection(d, slot.id, ahead, c.version, m.baseVersion)| ==>
                    DeleteServed(d, d', slot.id, ahead, op, c.version, m.baseVersion))
              && (op.kind == Insert ==> InsertServed(d, d', slot.id, ahead, op, c.version, m.baseVersion))
  {
    Traced(initial, limit, steps);
    var s := After(Start(initial, limit), steps);
    if NextIs(s, i, n) && Acceptable(s.slots[i].events[n].op) {
      ServesNext(s, i, n);
      var d, d', slot, c := s.doc, ServeSlot(s, i).doc, s.slots[i], Then(s.slots[i], n);
      var op, ahead, w := slot.events[n].op, PendingOps(c), slot.client.outbox[slot.served].baseVersion;
      if op.kind == Insert {
        InsertServes(d, d', slot.id, ahead, op, c.version, w);
      } else if op.kind == Delete && op.pos < |Projection(d, slot.id, ahead, c.version, w)| {
        DeleteServes(d, d', slot.id, ahead, op, c.version, w);
      }
    }
  }
}
