/** What an editor that rebased its queue would send: each pending edit folded over every foreign operation. As
    long as the edits ahead were logged where they are expected, that is what keeps a queued edit's meaning. */
module Rebasing {
  import opened Operations
  import opened Intention
  import opened Documents
  import opened Carrying
  import opened QueuedEdits

  // ----- The log between typing and sending -----

  /** The edits pending at version u as they should be at version v: each taken off when it is logged, the
      others folded over every foreign operation. */
  function Expected(log: seq<HistoryEntry>, id: string, pending: seq<Operation>, u: nat, v: nat): seq<Operation>
    requires v <= |log|
  {
    if v <= u then pending
    else
      var before := Expected(log, id, pending, u, v - 1);
      if log[v - 1].clientId != id then Rebase(before, log[v - 1].op) else if before == [] then [] else before[1..]
  }

  /** The client's own entries are logged where its pending edits should be by then. */
  predicate LoggedAsExpected(log: seq<HistoryEntry>, id: string, pending: seq<Operation>, u: nat, v: nat)
    requires v <= |log|
  {
    v <= u ||
    var before := Expected(log, id, pending, u, v - 1);
    && LoggedAsExpected(log, id, pending, u, v - 1)
    && (log[v - 1].clientId == id ==> before != [] && SameEdit(log[v - 1].op, before[0]))
  }

  // ----- Pointing at the same place -----

  /** `op'` on the characters t' points where `op` does on the characters t. */
  ghost predicate Tracks(t: seq<CharId>, op: Operation, t': seq<CharId>, op': Operation) {
    match op.kind
    case Insert => op'.kind == Insert && op'.pos <= |t'| && SameCut(t, op.pos, t', op'.pos)
    case Delete =>
      && op.pos < |t|
      && (if t[op.pos] in t' then op'.kind == Delete && op'.pos < |t'| && t'[op'.pos] == t[op.pos]
          else op'.kind == Noop)
    case Noop => op'.kind == Noop
    case Invalid => true
  }

  lemma TracksItself(t: seq<CharId>, op: Operation)
    requires Distinct(t) && InRange(op, |t|)
    ensures Tracks(t, op, t, op)
  {
  }

  lemma TracksOne(t0: seq<CharId>, op0: Operation, t: seq<CharId>, op: Operation, f: Operation, x: CharId)
    requires Tracks(t0, op0, t, op) && InRange(f, |t|) && Distinct(t) && x !in t && x !in t0
    ensures Tracks(t0, op0, Splice(t, f, [x]), Transform(op, f))
  {
    SpliceMembers(t, f, x);
    if op0.kind == Insert {
      InsertCutOne(t, f, x, op);
      CutsCompose(t0, op0.pos, t, op.pos, Splice(t, f, [x]), Transform(op, f).pos);
    } else if op.kind == Delete && op0.kind == Delete {
      DeleteTracksOne(t, f, x, op);
    }
  }

  // ----- One version further -----

  /** The characters the user counts with at version v: those of the text, with all but the last of the
      expected edits applied. */
  function Projected(ids: seq<CharId>, expected: seq<Operation>, names: seq<CharId>): seq<CharId>
    requires |expected| == |names| + 1
  {
    SpliceAll(ids, expected[..|names|], names)
  }

  ghost predicate Pointing(t0: seq<CharId>, op0: Operation, ids: seq<CharId>, expected: seq<Operation>,
                           names: seq<CharId>) {
    && |expected| == |names| + 1
    && FitAll(ids, expected[..|names|], names)
    && Tracks(t0, op0, Projected(ids, expected, names), expected[|names|])
  }

  /** The client's own entry: what was pending has become text. */
  lemma OwnEntry(t0: seq<CharId>, op0: Operation, ids: seq<CharId>, expected: seq<Operation>, names: seq<CharId>,
                 entry: Operation)
    requires Pointing(t0, op0, ids, expected, names) && names != [] && SameEdit(entry, expected[0])
    ensures Pointing(t0, op0, Splice(ids, entry, [names[0]]), expected[1..], names[1..])
  {
    assert Splice(ids, entry, [names[0]]) == Splice(ids, expected[0], [names[0]]);
    assert expected[..|names|][1..] == expected[1..][..|names| - 1];
  }

  /** A foreign entry: the text changes under the pending edits. */
  lemma ForeignEntry(t0: seq<CharId>, op0: Operation, ids: seq<CharId>, expected: seq<Operation>, names: seq<CharId>,
                     f: Operation, x: CharId)
    requires Pointing(t0, op0, ids, expected, names) && InRange(f, |ids|)
    requires Distinct(ids) && Distinct(names) && (forall y :: y in names ==> y !in ids) && x !in ids && x !in names
    requires x !in t0
    ensures Pointing(t0, op0, Splice(ids, f, [x]), Rebase(expected, f), names)
  {
    var pending, op := expected[..|names|], expected[|names|];
    assert expected == pending + [op];
    RebaseCommutes(ids, pending, names, f, x);
    RebaseLast(pending, op, f);
    var rebased := Rebase(expected, f);
    assert rebased[..|names|] == Rebase(pending, f) && rebased[|names|] == Transform(op, Through(pending, f));
    SpliceAllDistinct(ids, pending, names);
    if x in SpliceAll(ids, pending, names) {
      SpliceAllMembers(ids, pending, names, x);
    }
    TracksOne(t0, op0, SpliceAll(ids, pending, names), op, Through(pending, f), x);
  }

  // ----- Over the log -----

  /** The state of the walk at version v, on the way to w. */
  ghost predicate PointsAt(d: Doc, id: string, all: seq<Operation>, t0: seq<CharId>, u: nat, v: nat, w: nat)
    requires u <= v <= w <= Version(d) && all != []
  {
    Pointing(t0, all[|all| - 1], IdsAt(|d.initial|, Ops(d.log), v),
             Expected(d.log, id, all, u, v), Own(d.log, id, v, w))
  }

  lemma StepOwn(d: Doc, id: string, all: seq<Operation>, t0: seq<CharId>, u: nat, v: nat, w: nat)
    requires u <= v < w <= Version(d) && all != [] && PointsAt(d, id, all, t0, u, v, w)
    requires d.log[v].clientId == id && LoggedAsExpected(d.log, id, all, u, v + 1)
    ensures PointsAt(d, id, all, t0, u, v + 1, w)
  {
    var ids, expected, names := IdsAt(|d.initial|, Ops(d.log), v), Expected(d.log, id, all, u, v), Own(d.log, id, v, w);
    OwnFirst(d.log, id, v, w);
    OwnEntry(t0, all[|all| - 1], ids, expected, names, d.log[v].op);
    assert names[1..] == Own(d.log, id, v + 1, w);
  }

  lemma StepForeign(d: Doc, id: string, all: seq<Operation>, t0: seq<CharId>, u: nat, v: nat, w: nat)
    requires ValidDoc(d) && u <= v < w <= Version(d) && all != [] && PointsAt(d, id, all, t0, u, v, w)
    requires d.log[v].clientId != id && CharId.Typed(v + 1) !in t0
    ensures PointsAt(d, id, all, t0, u, v + 1, w)
  {
    var ids, expected, names := IdsAt(|d.initial|, Ops(d.log), v), Expected(d.log, id, all, u, v), Own(d.log, id, v, w);
    OwnFirst(d.log, id, v, w);
    OwnNamed(d.log, id, v, w);
    FreshAt(d, v);
    ValidLogEarlier(d.initial, Ops(d.log), v + 1, Version(d));
    IdsAtLength(d.initial, Ops(d.log), v);
    assert Ops(d.log)[v] == d.log[v].op && InRange(d.log[v].op, |ids|);
    ForeignEntry(t0, all[|all| - 1], ids, expected, names, d.log[v].op, CharId.Typed(v + 1));
  }

  lemma {:induction false} WalkPoints(d: Doc, id: string, all: seq<Operation>, t0: seq<CharId>, u: nat, v: nat, w: nat)
    requires ValidDoc(d) && u <= v <= w <= Version(d) && all != [] && PointsAt(d, id, all, t0, u, u, w)
    requires LoggedAsExpected(d.log, id, all, u, v)
    requires forall k :: u <= k < w && d.log[k].clientId != id ==> CharId.Typed(k + 1) !in t0
    ensures PointsAt(d, id, all, t0, u, v, w)
  {
    if u < v {
      WalkPoints(d, id, all, t0, u, v - 1, w);
      if d.log[v - 1].clientId == id {
        StepOwn(d, id, all, t0, u, v - 1, w);
      } else {
        StepForeign(d, id, all, t0, u, v - 1, w);
      }
    }
  }

  // ----- What the fold does -----

  /** An edit typed at version u behind `pending`, all of which has been logged by version w. */
  ghost predicate Queued(d: Doc, id: string, pending: seq<Operation>, op: Operation, u: nat, w: nat) {
    && ValidDoc(d) && u <= w <= Version(d) && |Own(d.log, id, u, w)| == |pending|
    && FitAll(IdsAt(|d.initial|, Ops(d.log), u), pending, Own(d.log, id, u, w))
    && (op.kind == Insert || op.kind == Delete) && InRange(op, |Projection(d, id, pending, u, w)|)
    && LoggedAsExpected(d.log, id, pending + [op], u, w)
  }

  /** The edit folded over the foreign operations taken between typing and sending, each as it stands behind
      what was pending. */
  function Folded(d: Doc, id: string, pending: seq<Operation>, op: Operation, u: nat, w: nat): Operation
    requires w <= Version(d)
  {
    var e := Expected(d.log, id, pending + [op], u, w);
    if e == [] then op else e[0]
  }

  lemma ProjectionFresh(d: Doc, id: string, pending: seq<Operation>, u: nat, w: nat, k: nat)
    requires u <= w <= Version(d) && |Own(d.log, id, u, w)| == |pending|
    requires u <= k < w && d.log[k].clientId != id
    ensures CharId.Typed(k + 1) !in Projection(d, id, pending, u, w)
  {
    FreshAt(d, u);
    OwnNamed(d.log, id, u, w);
    if CharId.Typed(k + 1) in Projection(d, id, pending, u, w) {
      SpliceAllMembers(IdsAt(|d.initial|, Ops(d.log), u), pending, Own(d.log, id, u, w), CharId.Typed(k + 1));
    }
  }

  lemma ProjectionDistinct(d: Doc, id: string, pending: seq<Operation>, u: nat, w: nat)
    requires u <= w <= Version(d) && |Own(d.log, id, u, w)| == |pending|
    ensures Distinct(Projection(d, id, pending, u, w))
  {
    FreshAt(d, u);
    OwnNamed(d.log, id, u, w);
    SpliceAllDistinct(IdsAt(|d.initial|, Ops(d.log), u), pending, Own(d.log, id, u, w));
  }

  /** Folding a queued edit over the foreign operations keeps its meaning: it still points at the character,
      or into the gap, of the projected text it was typed in. */
  lemma FoldingKeepsMeaning(d: Doc, id: string, pending: seq<Operation>, op: Operation, u: nat, w: nat)
    requires Queued(d, id, pending, op, u, w)
    ensures Tracks(Projection(d, id, pending, u, w), op,
                   IdsAt(|d.initial|, Ops(d.log), w), Folded(d, id, pending, op, u, w))
  {
    var all, t0, names := pending + [op], Projection(d, id, pending, u, w), Own(d.log, id, u, w);
    assert all[..|names|] == pending && all[|all| - 1] == all[|names|] == op;
    ProjectionDistinct(d, id, pending, u, w);
    TracksItself(t0, op);
    forall k | u <= k < w && d.log[k].clientId != id ensures CharId.Typed(k + 1) !in t0 {
      ProjectionFresh(d, id, pending, u, w, k);
    }
    WalkPoints(d, id, all, t0, u, w, w);
  }

  // ----- What sending as typed does -----

  /** Sent as it was typed, the insert lands where its fold does. */
  ghost predicate LandsAsFolded(d: Doc, id: string, pending: seq<Operation>, op: Operation, u: nat, w: nat)
    requires w <= Version(d)
  {
    var ids, x := IdsAt(|d.initial|, Ops(d.log), w), CharId.Typed(w + 1);
    Splice(ids, op, [x]) == Splice(ids, Folded(d, id, pending, op, u, w), [x])
  }

  /** Folding over the foreign operations leaves the edit as it is, up to the clamping any operation gets. */
  predicate FoldLeavesIt(d: Doc, id: string, pending: seq<Operation>, op: Operation, u: nat, w: nat)
    requires w <= Version(d)
  {
    SameEdit(Normalize(op, |IdsAt(|d.initial|, Ops(d.log), w)|), Folded(d, id, pending, op, u, w))
  }

  function Max(a: nat, b: nat): nat {
    if a < b then b else a
  }

  /** Between where it lands and where its fold would, no character of the projected text stands. */
  predicate NothingProjectedBetween(d: Doc, id: string, pending: seq<Operation>, op: Operation, u: nat, w: nat)
    requires u <= w <= Version(d) && |Own(d.log, id, u, w)| == |pending|
  {
    var ids, f := IdsAt(|d.initial|, Ops(d.log), w), Folded(d, id, pending, op, u, w);
    var p := Min(op.pos, |ids|);
    forall j :: 0 <= j < |ids| && Min(f.pos, p) <= j < Max(f.pos, p) ==> ids[j] !in Projection(d, id, pending, u, w)
  }

  /** Behind edits that were logged as expected, the fold of a delete is the delete that follows its character. */
  lemma FoldedFollows(d: Doc, id: string, pending: seq<Operation>, op: Operation, u: nat, w: nat)
    requires Queued(d, id, pending, op, u, w) && op.kind == Delete
    requires Known(d, Projection(d, id, pending, u, w)[op.pos], u, w)
    ensures SameEdit(Folded(d, id, pending, op, u, w), Follow(d, Projection(d, id, pending, u, w)[op.pos], u, w))
  {
    FoldingKeepsMeaning(d, id, pending, op, u, w);
    FollowsCharacter(d, Projection(d, id, pending, u, w)[op.pos], u, w);
    FreshAt(d, w);
  }

  /** A delete behind edits logged as expected keeps its meaning iff its fold leaves it as it is. */
  lemma FoldedDeleteExact(d: Doc, id: string, pending: seq<Operation>, op: Operation, u: nat, w: nat)
    requires Queued(d, id, pending, op, u, w) && op.kind == Delete
    ensures KeepsCharacter(d, id, pending, op, u, w) <==> FoldLeavesIt(d, id, pending, op, u, w)
  {
    QueuedDeleteExact(d, id, pending, op, u, w);
    FoldedFollows(d, id, pending, op, u, w);
  }

  lemma CutTwiceSplits(t: seq<CharId>, p: nat, ids: seq<CharId>, q: nat, r: nat, j: nat)
    requires SameCut(t, p, ids, q) && SameCut(t, p, ids, r) && q <= |ids| && r <= |ids|
    requires j < |ids| && ids[j] in t
    ensures j < q <==> j < r
  {
    var i :| 0 <= i < |t| && t[i] == ids[j];
  }

  lemma CutExactly(t: seq<CharId>, p: nat, ids: seq<CharId>, q: nat, r: nat)
    requires SameCut(t, p, ids, q) && q <= |ids| && r <= |ids|
    ensures SameCut(t, p, ids, r) <==> forall j :: 0 <= j < |ids| && Min(q, r) <= j < Max(q, r) ==> ids[j] !in t
  {
    if SameCut(t, p, ids, r) {
      forall j | 0 <= j < |ids| && ids[j] in t ensures j < q <==> j < r {
        CutTwiceSplits(t, p, ids, q, r, j);
      }
    }
  }

  /** An insert behind edits logged as expected lands where its fold does iff the fold leaves it as it is; and it
      lands in the gap it was typed for iff no character of the projected text stands between the two places. */
  lemma FoldedInsertExact(d: Doc, id: string, pending: seq<Operation>, op: Operation, u: nat, w: nat)
    requires Queued(d, id, pending, op, u, w) && op.kind == Insert
    ensures LandsAsFolded(d, id, pending, op, u, w) <==> FoldLeavesIt(d, id, pending, op, u, w)
    ensures KeepsGap(d, id, pending, op, u, w) <==> NothingProjectedBetween(d, id, pending, op, u, w)
    ensures FoldLeavesIt(d, id, pending, op, u, w) ==> KeepsGap(d, id, pending, op, u, w)
  {
    var ids, f := IdsAt(|d.initial|, Ops(d.log), w), Folded(d, id, pending, op, u, w);
    FoldingKeepsMeaning(d, id, pending, op, u, w);
    FreshAt(d, w);
    SameEffectExactly(ids, op, f, CharId.Typed(w + 1));
    CutExactly(Projection(d, id, pending, u, w), op.pos, ids, f.pos, Min(op.pos, |ids|));
  }
}
