/** What users meant. Every character of every version gets an identity, its place in the initial
    text or the version that typed it, so that "the character the user pointed at" can be stated. */
module Intention {
  import opened Operations

  datatype CharId = Original(index: nat) | Typed(version: nat)

  function IdsAt(n: nat, log: seq<Operation>, v: nat): seq<CharId>
    requires v <= |log|
  {
    if v == 0 then seq(n, i requires 0 <= i < n => Original(i))
    else Splice(IdsAt(n, log, v - 1), log[v - 1], [Typed(v)])
  }

  /** `id` had been created by version v (it may have been deleted since). */
  predicate Born(id: CharId, n: nat, v: nat) {
    match id
    case Original(i) => i < n
    case Typed(w) => 1 <= w <= v
  }

  ghost predicate Distinct<A>(s: seq<A>) {
    forall i, j :: 0 <= i < j < |s| ==> s[i] != s[j]
  }

  // ----- Identities follow the text -----

  lemma {:induction false} IdsAtLength(initial: string, log: seq<Operation>, v: nat)
    requires v <= |log| && ValidLog(initial, log, v)
    ensures |IdsAt(|initial|, log, v)| == |TextAt(initial, log, v)|
  {
    if v > 0 {
      IdsAtLength(initial, log, v - 1);
    }
  }

  lemma {:induction false} IdsAtBorn(n: nat, log: seq<Operation>, v: nat, id: CharId)
    requires v <= |log| && id in IdsAt(n, log, v)
    ensures Born(id, n, v)
  {
    if v > 0 && id != Typed(v) {
      IdsAtBorn(n, log, v - 1, id);
    }
  }

  lemma SpliceDistinct<A>(t: seq<A>, op: Operation, x: A)
    requires Distinct(t) && x !in t
    ensures Distinct(Splice(t, op, [x]))
  {
  }

  /** No two characters of any version share an identity. */
  lemma {:induction false} IdsAtDistinct(n: nat, log: seq<Operation>, v: nat)
    requires v <= |log|
    ensures Distinct(IdsAt(n, log, v))
  {
    if v > 0 {
      IdsAtDistinct(n, log, v - 1);
      if Typed(v) in IdsAt(n, log, v - 1) {
        IdsAtBorn(n, log, v - 1, Typed(v));
      }
      SpliceDistinct(IdsAt(n, log, v - 1), log[v - 1], Typed(v));
    }
  }

  /** A deleted character never comes back. */
  lemma {:induction false} DeletedForever(n: nat, log: seq<Operation>, u: nat, v: nat, id: CharId)
    requires u <= v <= |log| && Born(id, n, u) && id in IdsAt(n, log, v)
    ensures id in IdsAt(n, log, u)
  {
    if u < v {
      assert id in IdsAt(n, log, v - 1);
      DeletedForever(n, log, u, v - 1, id);
    }
  }

  lemma StaysDeleted(n: nat, log: seq<Operation>, u: nat, v: nat, id: CharId)
    requires u <= v <= |log| && Born(id, n, u)
    ensures id !in IdsAt(n, log, u) ==> id !in IdsAt(n, log, v)
  {
    if id in IdsAt(n, log, v) {
      DeletedForever(n, log, u, v, id);
    }
  }

  /** The character an identity stands for. */
  function CharOf(initial: string, log: seq<Operation>, id: CharId): char
    requires Born(id, |initial|, |log|)
    requires id.Typed? ==> |log[id.version - 1].ch| == 1
  {
    match id
    case Original(i) => initial[i]
    case Typed(w) => log[w - 1].ch[0]
  }

  /** Identities are faithful: version v shows, at each place, the character its identity stands for. */
  lemma {:induction false} IdsNameCharacters(initial: string, log: seq<Operation>, v: nat, j: nat)
    requires v <= |log| && ValidLog(initial, log, v) && j < |TextAt(initial, log, v)|
    ensures |IdsAt(|initial|, log, v)| == |TextAt(initial, log, v)|
    ensures var id := IdsAt(|initial|, log, v)[j];
            && Born(id, |initial|, v)
            && (id.Typed? ==> |log[id.version - 1].ch| == 1)
            && TextAt(initial, log, v)[j] == CharOf(initial, log, id)
  {
    IdsAtLength(initial, log, v);
    if v > 0 {
      var op := log[v - 1];
      IdsAtLength(initial, log, v - 1);
      if op.kind == Insert && op.pos < j {
        IdsNameCharacters(initial, log, v - 1, j - 1);
      } else if op.kind == Delete && op.pos <= j {
        IdsNameCharacters(initial, log, v - 1, j + 1);
      } else if op.kind != Insert || op.pos != j {
        IdsNameCharacters(initial, log, v - 1, j);
      }
    }
  }

  // ----- Deletes -----

  /** `t` without the characters in `gone`. */
  function Dropping<A(==)>(t: seq<A>, gone: set<A>): seq<A> {
    if t == [] then [] else if t[0] in gone then Dropping(t[1..], gone) else [t[0]] + Dropping(t[1..], gone)
  }

  function Without<A(==)>(t: seq<A>, id: A): seq<A> {
    Dropping(t, {id})
  }

  lemma {:induction false} WithoutAbsent<A>(t: seq<A>, id: A)
    requires id !in t
    ensures Without(t, id) == t
  {
    if t != [] {
      WithoutAbsent(t[1..], id);
    }
  }

  lemma {:induction false} WithoutAt<A>(t: seq<A>, p: nat)
    requires p < |t| && Distinct(t)
    ensures Without(t, t[p]) == t[..p] + t[p + 1..]
  {
    if p == 0 {
      assert t[p] !in t[1..];
      WithoutAbsent(t[1..], t[0]);
    } else {
      WithoutAt(t[1..], p - 1);
      assert t[..p] == [t[0]] + t[1..][..p - 1];
      assert t[p + 1..] == t[1..][p..];
    }
  }

  /** The step of the delete argument: transforming against one more operation tracks the character. */
  lemma DeleteTracksOne(t: seq<CharId>, previous: Operation, x: CharId, d: Operation)
    requires d.kind == Delete && d.pos < |t| && InRange(previous, |t|) && Distinct(t) && x !in t
    ensures var d', t' := Transform(d, previous), Splice(t, previous, [x]);
            if t[d.pos] in t' then d'.kind == Delete && d'.pos < |t'| && t'[d'.pos] == t[d.pos]
            else d'.kind == Noop
  {
    var d', t' := Transform(d, previous), Splice(t, previous, [x]);
    if d'.kind == Delete {
      assert t'[d'.pos] == t[d.pos];
    } else {
      assert t' == t[..d.pos] + t[d.pos + 1..];
    }
  }

  lemma {:induction false} DeleteTracks(initial: string, log: seq<Operation>, op: Operation, base: nat, v: nat)
    requires base <= v <= |log| && ValidLog(initial, log, v)
    requires op.kind == Delete && op.pos < |IdsAt(|initial|, log, base)|
    ensures var id, d, ids := IdsAt(|initial|, log, base)[op.pos], Fold(op, log, base, v), IdsAt(|initial|, log, v);
            if id in ids then d.kind == Delete && d.pos < |ids| && ids[d.pos] == id else d.kind == Noop
  {
    var n := |initial|;
    var id := IdsAt(n, log, base)[op.pos];
    if v > base {
      DeleteTracks(initial, log, op, base, v - 1);
      var ids := IdsAt(n, log, v - 1);
      IdsAtBorn(n, log, base, id);
      IdsAtDistinct(n, log, v - 1);
      IdsAtLength(initial, log, v - 1);
      if Typed(v) in ids {
        IdsAtBorn(n, log, v - 1, Typed(v));
      }
      StaysDeleted(n, log, v - 1, v, id);
      if id in ids {
        DeleteTracksOne(ids, log[v - 1], Typed(v), Fold(op, log, base, v - 1));
      }
    }
  }

  /** Delete intention over unbounded history: whatever was applied in between, the folded delete
      removes exactly the character at its place in version `base`, and is a Noop iff that one is already gone. */
  lemma DeleteIntention(initial: string, log: seq<Operation>, op: Operation, base: nat, v: nat)
    requires base <= v <= |log| && ValidLog(initial, log, v)
    requires op.kind == Delete && op.pos < |TextAt(initial, log, base)|
    ensures |IdsAt(|initial|, log, base)| == |TextAt(initial, log, base)|
    ensures var id, d, ids := IdsAt(|initial|, log, base)[op.pos], Fold(op, log, base, v), IdsAt(|initial|, log, v);
            && Splice(ids, d, []) == Without(ids, id)
            && (d.kind == Noop <==> id !in ids)
  {
    var n := |initial|;
    ValidLogEarlier(initial, log, base, v);
    IdsAtLength(initial, log, base);
    DeleteTracks(initial, log, op, base, v);
    IdsAtDistinct(n, log, v);
    var id, d, ids := IdsAt(n, log, base)[op.pos], Fold(op, log, base, v), IdsAt(n, log, v);
    if id in ids {
      WithoutAt(ids, d.pos);
    } else {
      WithoutAbsent(ids, id);
    }
  }

  // ----- Inserts -----

  /** Gap p of t and gap q of t' separate the common characters in the same way. */
  ghost predicate SameCut(t: seq<CharId>, p: nat, t': seq<CharId>, q: nat) {
    forall i, j :: 0 <= i < |t| && 0 <= j < |t'| && t[i] == t'[j] ==> (i < p <==> j < q)
  }

  lemma InsertCutOne(t: seq<CharId>, previous: Operation, x: CharId, op: Operation)
    requires op.kind == Insert && op.pos <= |t| && InRange(previous, |t|) && Distinct(t) && x !in t
    ensures SameCut(t, op.pos, Splice(t, previous, [x]), Transform(op, previous).pos)
  {
  }

  lemma CutsCompose(t0: seq<CharId>, p0: nat, t1: seq<CharId>, p1: nat, t2: seq<CharId>, p2: nat)
    requires SameCut(t0, p0, t1, p1) && SameCut(t1, p1, t2, p2)
    requires forall x :: x in t0 && x in t2 ==> x in t1
    ensures SameCut(t0, p0, t2, p2)
  {
    forall i, j | 0 <= i < |t0| && 0 <= j < |t2| && t0[i] == t2[j]
      ensures i < p0 <==> j < p2
    {
      assert t0[i] in t1;
      var k :| 0 <= k < |t1| && t1[k] == t0[i];
    }
  }

  /** Insert intention: an in-range insert folded over any history still lands between the surviving
      characters of the two sides of its gap in version `base`. */
  lemma {:induction false} InsertIntention(initial: string, log: seq<Operation>, op: Operation, base: nat, v: nat)
    requires base <= v <= |log| && ValidLog(initial, log, v)
    requires op.kind == Insert && op.pos <= |TextAt(initial, log, base)|
    ensures SameCut(IdsAt(|initial|, log, base), op.pos, IdsAt(|initial|, log, v), Fold(op, log, base, v).pos)
  {
    var n := |initial|;
    if v == base {
      IdsAtDistinct(n, log, v);
    } else {
      InsertIntention(initial, log, op, base, v - 1);
      FoldKeepsKind(op, log, base, v - 1);
      ValidLogEarlier(initial, log, v - 1, v);
      FoldKeepsRange(initial, log, op, base, v - 1);
      var ids, f := IdsAt(n, log, v - 1), Fold(op, log, base, v - 1);
      IdsAtLength(initial, log, v - 1);
      IdsAtDistinct(n, log, v - 1);
      if Typed(v) in ids {
        IdsAtBorn(n, log, v - 1, Typed(v));
      }
      InsertCutOne(ids, log[v - 1], Typed(v), f);
      forall x | x in IdsAt(n, log, base) && x in IdsAt(n, log, v)
        ensures x in ids
      {
        IdsAtBorn(n, log, base, x);
        DeletedForever(n, log, v - 1, v, x);
      }
      CutsCompose(IdsAt(n, log, base), op.pos, ids, f.pos, IdsAt(n, log, v), Fold(op, log, base, v).pos);
    }
  }

  /** Server order decides ties: of two inserts written for the same gap of the same version, the one
      the server took first (as version m + 1) ends up left of where the other is inserted. */
  lemma SameGapServerOrder(initial: string, log: seq<Operation>, a: Operation, b: Operation, base: nat, m: nat, v: nat,
                           j: nat)
    requires base <= m < v <= |log| && ValidLog(initial, log, v)
    requires SameGapInserts(a, b) && a.pos <= |TextAt(initial, log, base)|
    requires log[m] == Normalize(Fold(a, log, base, m), |TextAt(initial, log, m)|)
    requires j < |IdsAt(|initial|, log, v)| && IdsAt(|initial|, log, v)[j] == Typed(m + 1)
    ensures j < Fold(b, log, base, v).pos
  {
    ValidLogEarlier(initial, log, m + 1, v);
    FirstOfTheGap(initial, log, a, b, base, m);
    FoldCompose(b, log, base, m + 1, v);
    InsertIntention(initial, log, Fold(b, log, base, m + 1), m + 1, v);
  }

  lemma FirstOfTheGap(initial: string, log: seq<Operation>, a: Operation, b: Operation, base: nat, m: nat)
    requires base <= m < |log| && ValidLog(initial, log, m + 1)
    requires SameGapInserts(a, b) && a.pos <= |TextAt(initial, log, base)|
    requires log[m] == Normalize(Fold(a, log, base, m), |TextAt(initial, log, m)|)
    ensures var f, ids := Fold(b, log, base, m + 1), IdsAt(|initial|, log, m + 1);
            && f.kind == Insert && 0 < f.pos <= |TextAt(initial, log, m + 1)|
            && f.pos <= |ids| && ids[f.pos - 1] == Typed(m + 1)
  {
    FoldKeepsRange(initial, log, a, base, m);
    FoldKeepsRange(initial, log, b, base, m + 1);
    FoldIgnoresCharacter(a, b, log, base, m);
    FoldKeepsKind(b, log, base, m + 1);
    IdsAtLength(initial, log, m);
  }

  // ----- Survivors keep their order -----

  /** Characters common to two versions stand in the same order in both. */
  lemma {:induction false} OrderKept(initial: string, log: seq<Operation>, u: nat, v: nat, i: nat, j: nat, i': nat,
                                     j': nat)
    requires u <= v <= |log| && ValidLog(initial, log, v)
    requires i < j < |IdsAt(|initial|, log, u)| && i' < |IdsAt(|initial|, log, v)| && j' < |IdsAt(|initial|, log, v)|
    requires IdsAt(|initial|, log, u)[i] == IdsAt(|initial|, log, v)[i']
    requires IdsAt(|initial|, log, u)[j] == IdsAt(|initial|, log, v)[j']
    ensures i' < j'
  {
    ValidLogEarlier(initial, log, u, v);
    IdsAtLength(initial, log, u);
    InsertIntention(initial, log, Operation(Insert, j, "x", ""), u, v);
  }
}
