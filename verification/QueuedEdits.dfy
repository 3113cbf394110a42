/** What becomes of an edit that is queued behind others. It is sent as it was typed, bound to the version
    held when it is sent; what it meant is a place in the projected text of the moment it was typed: the text
    of an earlier version with the edits then pending applied, which is what the editor counts in. Whether it
    still means that place is read off where each character meant has gone, which its sender can compute from
    the operations it has received. */
module QueuedEdits {
  import opened Operations
  import opened Intention
  import opened Documents
  import opened Carrying

  // ----- The log between typing and sending -----

  /** What the entries of client `id` after version u, up to v, type. */
  function Own(log: seq<HistoryEntry>, id: string, u: nat, v: nat): seq<CharId>
    requires v <= |log|
  {
    if v <= u then [] else Own(log, id, u, v - 1) + (if log[v - 1].clientId == id then [CharId.Typed(v)] else [])
  }

  lemma {:induction false} OwnFirst(log: seq<HistoryEntry>, id: string, v: nat, w: nat)
    requires v < w <= |log|
    ensures Own(log, id, v, w)
            == if log[v].clientId == id then [CharId.Typed(v + 1)] + Own(log, id, v + 1, w) else Own(log, id, v + 1, w)
  {
    if v + 1 < w {
      OwnFirst(log, id, v, w - 1);
    }
  }

  lemma {:induction false} OwnNamed(log: seq<HistoryEntry>, id: string, u: nat, v: nat)
    requires v <= |log|
    ensures Distinct(Own(log, id, u, v))
    ensures forall x :: x in Own(log, id, u, v) ==> x.Typed? && u < x.version <= v && log[x.version - 1].clientId == id
  {
    if v > u {
      OwnNamed(log, id, u, v - 1);
    }
  }

  lemma FreshAt(d: Doc, v: nat)
    requires v <= Version(d)
    ensures Distinct(IdsAt(|d.initial|, Ops(d.log), v))
    ensures forall k: nat :: k > v ==> CharId.Typed(k) !in IdsAt(|d.initial|, Ops(d.log), v)
  {
    IdsAtDistinct(|d.initial|, Ops(d.log), v);
    forall k: nat | k > v ensures CharId.Typed(k) !in IdsAt(|d.initial|, Ops(d.log), v) {
      if CharId.Typed(k) in IdsAt(|d.initial|, Ops(d.log), v) {
        IdsAtBorn(|d.initial|, Ops(d.log), v, CharId.Typed(k));
      }
    }
  }

  // ----- The projected text -----

  /** The projected text when typing: the characters of version u with the edits pending applied, named by
      the entries that log them up to version w. */
  function Projection(d: Doc, id: string, pending: seq<Operation>, u: nat, w: nat): seq<CharId>
    requires u <= w <= Version(d) && |Own(d.log, id, u, w)| == |pending|
  {
    SpliceAll(IdsAt(|d.initial|, Ops(d.log), u), pending, Own(d.log, id, u, w))
  }

  /** A character of version u, or one typed after it and up to version v. */
  predicate Known(d: Doc, x: CharId, u: nat, v: nat)
    requires u <= v <= Version(d)
  {
    x in IdsAt(|d.initial|, Ops(d.log), u) || (x.Typed? && u < x.version <= v)
  }

  lemma ProjectionKnown(d: Doc, id: string, pending: seq<Operation>, u: nat, w: nat)
    requires u <= w <= Version(d) && |Own(d.log, id, u, w)| == |pending|
    ensures forall x :: x in Projection(d, id, pending, u, w) ==> Known(d, x, u, w)
  {
    OwnNamed(d.log, id, u, w);
    forall x | x in Projection(d, id, pending, u, w) ensures Known(d, x, u, w) {
      SpliceAllMembers(IdsAt(|d.initial|, Ops(d.log), u), pending, Own(d.log, id, u, w), x);
    }
  }

  // ----- Edits that do the same -----

  predicate SameEdit(a: Operation, b: Operation) {
    a.kind == b.kind && (a.kind == Insert || a.kind == Delete ==> a.pos == b.pos)
  }

  lemma InsertEffects<A>(t: seq<A>, p: nat, q: nat, x: A)
    requires p < q <= |t| && x !in t
    ensures t[..p] + [x] + t[p..] != t[..q] + [x] + t[q..]
  {
    assert (t[..p] + [x] + t[p..])[p] == x && (t[..q] + [x] + t[q..])[p] == t[p];
    assert t[p] in t;
  }

  lemma DeleteEffects<A>(t: seq<A>, p: nat, q: nat)
    requires p < q < |t| && Distinct(t)
    ensures t[..p] + t[p + 1..] != t[..q] + t[q + 1..]
  {
    assert (t[..p] + t[p + 1..])[p] == t[p + 1] && (t[..q] + t[q + 1..])[p] == t[p];
  }

  /** Two edits do the same to a sequence of identities exactly when one is the other, up to clamping. */
  lemma SameEffectExactly(t: seq<CharId>, op: Operation, f: Operation, x: CharId)
    requires Distinct(t) && x !in t && InRange(f, |t|)
    requires (op.kind == f.kind == Insert) || (op.kind in {Delete, Noop} && f.kind in {Delete, Noop})
    ensures Splice(t, op, [x]) == Splice(t, f, [x]) <==> SameEdit(Normalize(op, |t|), f)
  {
    if op.kind == Insert {
      var p := Min(op.pos, |t|);
      if p < f.pos {
        InsertEffects(t, p, f.pos, x);
      } else if f.pos < p {
        InsertEffects(t, f.pos, p, x);
      }
    } else if op.kind == f.kind == Delete && op.pos < |t| {
      if op.pos < f.pos {
        DeleteEffects(t, op.pos, f.pos);
      } else if f.pos < op.pos {
        DeleteEffects(t, f.pos, op.pos);
      }
    }
  }

  // ----- Where a character has gone -----

  function IndexOf<A(==)>(s: seq<A>, x: A): (k: nat)
    requires x in s
    ensures k < |s| && s[k] == x
  {
    if s[0] == x then 0 else 1 + IndexOf(s[1..], x)
  }

  function DeleteAt(pos: nat): Operation {
    Operation(Delete, pos, "", "")
  }

  /** The delete that removes x from version v: from where x stood in version u, or from where the entry that
      typed it put it, folded over what came since; a Noop when x is gone. */
  function Follow(d: Doc, x: CharId, u: nat, v: nat): Operation
    requires u <= v <= Version(d) && Known(d, x, u, v)
  {
    var ids, ops := IdsAt(|d.initial|, Ops(d.log), u), Ops(d.log);
    if x in ids then Fold(DeleteAt(IndexOf(ids, x)), ops, u, v)
    else if d.log[x.version - 1].op.kind == Insert then Fold(DeleteAt(d.log[x.version - 1].op.pos), ops, x.version, v)
    else MakeNoop(DeleteAt(0), ALREADY_DELETED)
  }

  /** The entry that types x puts it at its position. */
  lemma EntryTypes(d: Doc, v: nat)
    requires ValidDoc(d) && 1 <= v <= Version(d)
    ensures var ids, e := IdsAt(|d.initial|, Ops(d.log), v), d.log[v - 1].op;
            if e.kind == Insert then e.pos < |ids| && ids[e.pos] == CharId.Typed(v) else CharId.Typed(v) !in ids
  {
    ValidLogEarlier(d.initial, Ops(d.log), v, Version(d));
    IdsAtLength(d.initial, Ops(d.log), v - 1);
    FreshAt(d, v - 1);
    assert Ops(d.log)[v - 1] == d.log[v - 1].op;
  }

  lemma FollowsCharacter(d: Doc, x: CharId, u: nat, v: nat)
    requires ValidDoc(d) && u <= v <= Version(d) && Known(d, x, u, v)
    ensures var ids, f := IdsAt(|d.initial|, Ops(d.log), v), Follow(d, x, u, v);
            if x in ids then f.kind == Delete && f.pos < |ids| && ids[f.pos] == x else f.kind == Noop
  {
    var n, ops := |d.initial|, Ops(d.log);
    ValidLogEarlier(d.initial, ops, v, |ops|);
    if x in IdsAt(n, ops, u) {
      DeleteTracks(d.initial, ops, DeleteAt(IndexOf(IdsAt(n, ops, u), x)), u, v);
    } else {
      EntryTypes(d, x.version);
      if d.log[x.version - 1].op.kind == Insert {
        DeleteTracks(d.initial, ops, DeleteAt(d.log[x.version - 1].op.pos), x.version, v);
      } else {
        StaysDeleted(n, ops, x.version, v, x);
      }
    }
  }

  /** An operation on version v removes exactly x iff it is the delete that follows x. */
  lemma DeleteFollowed(d: Doc, x: CharId, u: nat, v: nat, op: Operation)
    requires ValidDoc(d) && u <= v <= Version(d) && Known(d, x, u, v) && op.kind in {Delete, Noop}
    ensures var ids := IdsAt(|d.initial|, Ops(d.log), v);
            Splice(ids, op, []) == Without(ids, x) <==> SameEdit(Normalize(op, |ids|), Follow(d, x, u, v))
  {
    var ids, f := IdsAt(|d.initial|, Ops(d.log), v), Follow(d, x, u, v);
    FollowsCharacter(d, x, u, v);
    FreshAt(d, v);
    if x in ids {
      WithoutAt(ids, f.pos);
    } else {
      WithoutAbsent(ids, x);
    }
    SameEffectExactly(ids, op, f, CharId.Typed(v + 1));
  }

  /** Gap q of version v separates the characters t as gap p of t does iff it does so where they have gone. */
  lemma GapFollowed(d: Doc, t: seq<CharId>, p: nat, u: nat, v: nat, q: nat)
    requires ValidDoc(d) && u <= v <= Version(d) && forall i :: 0 <= i < |t| ==> Known(d, t[i], u, v)
    ensures SameCut(t, p, IdsAt(|d.initial|, Ops(d.log), v), q) <==>
            forall i :: 0 <= i < |t| && Follow(d, t[i], u, v).kind == Delete ==>
                          (i < p <==> Follow(d, t[i], u, v).pos < q)
  {
    var ids := IdsAt(|d.initial|, Ops(d.log), v);
    FreshAt(d, v);
    forall i | 0 <= i < |t|
      ensures var f := Follow(d, t[i], u, v);
              if t[i] in ids then f.kind == Delete && f.pos < |ids| && ids[f.pos] == t[i] else f.kind == Noop
    {
      FollowsCharacter(d, t[i], u, v);
    }
  }

  // ----- What it takes for a queued edit to keep its meaning -----

  /** Sent as it was typed, the delete removes the projected character it was typed for and nothing else (or
      nothing at all, when that one is gone). */
  ghost predicate KeepsCharacter(d: Doc, id: string, pending: seq<Operation>, op: Operation, u: nat, w: nat)
    requires u <= w <= Version(d) && |Own(d.log, id, u, w)| == |pending| && op.pos < |Projection(d, id, pending, u, w)|
  {
    var ids := IdsAt(|d.initial|, Ops(d.log), w);
    Splice(ids, op, []) == Without(ids, Projection(d, id, pending, u, w)[op.pos])
  }

  /** Sent as it was typed, the insert lands in the gap of the projected text it was typed for. */
  ghost predicate KeepsGap(d: Doc, id: string, pending: seq<Operation>, op: Operation, u: nat, w: nat)
    requires u <= w <= Version(d) && |Own(d.log, id, u, w)| == |pending|
  {
    var ids := IdsAt(|d.initial|, Ops(d.log), w);
    SameCut(Projection(d, id, pending, u, w), op.pos, ids, Min(op.pos, |ids|))
  }

  /** Sent as it was typed, the delete is the one that follows the character it was typed for. */
  predicate FollowsTheCharacter(d: Doc, id: string, pending: seq<Operation>, op: Operation, u: nat, w: nat)
    requires u <= w <= Version(d) && |Own(d.log, id, u, w)| == |pending| && op.pos < |Projection(d, id, pending, u, w)|
    requires Known(d, Projection(d, id, pending, u, w)[op.pos], u, w)
  {
    var ids := IdsAt(|d.initial|, Ops(d.log), w);
    SameEdit(Normalize(op, |ids|), Follow(d, Projection(d, id, pending, u, w)[op.pos], u, w))
  }

  /** Each character of the projected text that is still there has gone to the side of the insert's position
      on which it was. */
  predicate FollowsTheGap(d: Doc, id: string, pending: seq<Operation>, op: Operation, u: nat, w: nat)
    requires u <= w <= Version(d) && |Own(d.log, id, u, w)| == |pending|
    requires forall x :: x in Projection(d, id, pending, u, w) ==> Known(d, x, u, w)
  {
    var t := Projection(d, id, pending, u, w);
    forall i :: 0 <= i < |t| && Follow(d, t[i], u, w).kind == Delete ==>
                  (i < op.pos <==> Follow(d, t[i], u, w).pos < op.pos)
  }

  /** A queued delete, exactly, whatever has become of the edits ahead of it: it keeps its meaning iff the
      character it was typed for has stayed at, or come back to, its position; or is gone, and the position has
      run out of the text. */
  lemma QueuedDeleteExact(d: Doc, id: string, pending: seq<Operation>, op: Operation, u: nat, w: nat)
    requires ValidDoc(d) && u <= w <= Version(d) && |Own(d.log, id, u, w)| == |pending|
    requires op.kind == Delete && op.pos < |Projection(d, id, pending, u, w)|
    ensures Known(d, Projection(d, id, pending, u, w)[op.pos], u, w)
    ensures KeepsCharacter(d, id, pending, op, u, w) <==> FollowsTheCharacter(d, id, pending, op, u, w)
  {
    ProjectionKnown(d, id, pending, u, w);
    assert Projection(d, id, pending, u, w)[op.pos] in Projection(d, id, pending, u, w);
    DeleteFollowed(d, Projection(d, id, pending, u, w)[op.pos], u, w, op);
  }

  /** A queued insert, exactly: it keeps its meaning iff every character of the projected text that is still
      there is on the same side of its position as it was. */
  lemma QueuedInsertExact(d: Doc, id: string, pending: seq<Operation>, op: Operation, u: nat, w: nat)
    requires ValidDoc(d) && u <= w <= Version(d) && |Own(d.log, id, u, w)| == |pending| && op.kind == Insert
    ensures forall x :: x in Projection(d, id, pending, u, w) ==> Known(d, x, u, w)
    ensures KeepsGap(d, id, pending, op, u, w) <==> FollowsTheGap(d, id, pending, op, u, w)
  {
    var ids, t := IdsAt(|d.initial|, Ops(d.log), w), Projection(d, id, pending, u, w);
    ProjectionKnown(d, id, pending, u, w);
    GapFollowed(d, t, op.pos, u, w, Min(op.pos, |ids|));
    forall i | 0 <= i < |t| && Follow(d, t[i], u, w).kind == Delete ensures Follow(d, t[i], u, w).pos < |ids| {
      FollowsCharacter(d, t[i], u, w);
    }
  }
}
