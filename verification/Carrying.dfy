/** Foreign operations carried over edits that are still pending, as an editor that rebased its queue would
    have to do it. */
module Carrying {
  import opened Operations
  import opened Intention

  /** What `f`, which the server took first, does once `p` has been applied. */
  function Carry(f: Operation, p: Operation): Operation {
    if f.kind == p.kind == Insert && f.pos == p.pos then f else Transform(f, p)
  }

  /** The pending edits after `f`: each is folded over what `f` has become by then. */
  function Rebase(pending: seq<Operation>, f: Operation): seq<Operation> {
    if pending == [] then [] else [Transform(pending[0], f)] + Rebase(pending[1..], Carry(f, pending[0]))
  }

  function Through(pending: seq<Operation>, f: Operation): Operation {
    if pending == [] then f else Through(pending[1..], Carry(f, pending[0]))
  }

  /** Applies the pending edits; `names` are the identities of what they insert. */
  function SpliceAll<A>(t: seq<A>, pending: seq<Operation>, names: seq<A>): seq<A>
    requires |names| == |pending|
    decreases pending
  {
    if pending == [] then t else SpliceAll(Splice(t, pending[0], [names[0]]), pending[1..], names[1..])
  }

  ghost predicate FitAll<A>(t: seq<A>, pending: seq<Operation>, names: seq<A>)
    requires |names| == |pending|
    decreases pending
  {
    pending == [] || (InRange(pending[0], |t|) && FitAll(Splice(t, pending[0], [names[0]]), pending[1..], names[1..]))
  }

  // ----- One foreign operation and one pending edit -----

  lemma CarryInserts<A>(t: seq<A>, f: Operation, p: Operation, y: A, x: A)
    requires f.kind == p.kind == Insert && f.pos <= p.pos <= |t|
    ensures Splice(Splice(t, p, [x]), f, [y]) == Splice(Splice(t, f, [y]), p.(pos := p.pos + 1), [x])
  {
    var one, two := Splice(t, p, [x]), Splice(t, f, [y]);
    assert one == t[..p.pos] + [x] + t[p.pos..] && two == t[..f.pos] + [y] + t[f.pos..];
    assert one[..f.pos] == t[..f.pos] && one[f.pos..] == t[f.pos..p.pos] + [x] + t[p.pos..];
    assert t[f.pos..] == t[f.pos..p.pos] + t[p.pos..];
    assert two[..p.pos + 1] == t[..f.pos] + [y] + t[f.pos..p.pos] && two[p.pos + 1..] == t[p.pos..];
  }

  lemma CarryInsertLeft<A>(t: seq<A>, i: Operation, d: Operation, x: A)
    requires i.kind == Insert && d.kind == Delete && i.pos <= d.pos < |t|
    ensures Splice(Splice(t, i, [x]), d.(pos := d.pos + 1), [x]) == Splice(Splice(t, d, [x]), i, [x])
  {
    var one, two := Splice(t, i, [x]), Splice(t, d, [x]);
    assert one[..d.pos + 1] == t[..i.pos] + [x] + t[i.pos..d.pos] && one[d.pos + 2..] == t[d.pos + 1..];
    assert two[..i.pos] == t[..i.pos] && two[i.pos..] == t[i.pos..d.pos] + t[d.pos + 1..];
  }

  lemma CarryInsertRight<A>(t: seq<A>, i: Operation, d: Operation, x: A)
    requires i.kind == Insert && d.kind == Delete && d.pos < i.pos <= |t|
    ensures Splice(Splice(t, i, [x]), d, [x]) == Splice(Splice(t, d, [x]), i.(pos := i.pos - 1), [x])
  {
    var one, two := Splice(t, i, [x]), Splice(t, d, [x]);
    assert one[..d.pos] == t[..d.pos] && one[d.pos + 1..] == t[d.pos + 1..i.pos] + [x] + t[i.pos..];
    assert two[..i.pos - 1] == t[..d.pos] + t[d.pos + 1..i.pos] && two[i.pos - 1..] == t[i.pos..];
  }

  lemma CarryDeletes<A>(t: seq<A>, a: Operation, b: Operation, x: A)
    requires a.kind == b.kind == Delete && a.pos < b.pos < |t|
    ensures Splice(Splice(t, a, [x]), b.(pos := b.pos - 1), [x]) == Splice(Splice(t, b, [x]), a, [x])
  {
    var one, two := Splice(t, a, [x]), Splice(t, b, [x]);
    assert one[..b.pos - 1] == t[..a.pos] + t[a.pos + 1..b.pos] && one[b.pos..] == t[b.pos + 1..];
    assert two[..a.pos] == t[..a.pos] && two[a.pos + 1..] == t[a.pos + 1..b.pos] + t[b.pos + 1..];
  }

  ghost predicate Commute<A>(t: seq<A>, f: Operation, p: Operation, y: A, x: A) {
    && Splice(Splice(t, p, [x]), Carry(f, p), [y]) == Splice(Splice(t, f, [y]), Transform(p, f), [x])
    && InRange(Carry(f, p), |Splice(t, p, [x])|) && InRange(Transform(p, f), |Splice(t, f, [y])|)
  }

  lemma CommuteInserts<A>(t: seq<A>, f: Operation, p: Operation, y: A, x: A)
    requires f.kind == p.kind == Insert && f.pos <= |t| && p.pos <= |t|
    ensures Commute(t, f, p, y, x)
  {
    if f.pos <= p.pos {
      CarryInserts(t, f, p, y, x);
    } else {
      CarryInserts(t, p, f, x, y);
    }
  }

  lemma CommuteInsertDelete<A>(t: seq<A>, f: Operation, p: Operation, y: A, x: A)
    requires f.kind == Insert && p.kind == Delete && f.pos <= |t| && p.pos < |t|
    ensures Commute(t, f, p, y, x)
  {
    if f.pos <= p.pos {
      CarryInsertLeft(t, f, p, y);
    } else {
      CarryInsertRight(t, f, p, y);
    }
  }

  lemma CommuteDeleteInsert<A>(t: seq<A>, f: Operation, p: Operation, y: A, x: A)
    requires f.kind == Delete && p.kind == Insert && f.pos < |t| && p.pos <= |t|
    ensures Commute(t, f, p, y, x)
  {
    if p.pos <= f.pos {
      CarryInsertLeft(t, p, f, x);
    } else {
      CarryInsertRight(t, p, f, x);
    }
  }

  lemma CommuteDeletes<A>(t: seq<A>, f: Operation, p: Operation, y: A, x: A)
    requires f.kind == p.kind == Delete && f.pos < |t| && p.pos < |t|
    ensures Commute(t, f, p, y, x)
  {
    if f.pos < p.pos {
      CarryDeletes(t, f, p, x);
    } else if p.pos < f.pos {
      CarryDeletes(t, p, f, x);
    }
  }

  /** The two ways round give the same: the edit and then the carried operation, or the operation and then
      the transformed edit. */
  lemma CarryCommutes<A>(t: seq<A>, f: Operation, p: Operation, y: A, x: A)
    requires InRange(f, |t|) && InRange(p, |t|)
    ensures Commute(t, f, p, y, x)
  {
    if f.kind == Insert && p.kind == Insert {
      CommuteInserts(t, f, p, y, x);
    } else if f.kind == Insert && p.kind == Delete {
      CommuteInsertDelete(t, f, p, y, x);
    } else if f.kind == Delete && p.kind == Insert {
      CommuteDeleteInsert(t, f, p, y, x);
    } else if f.kind == Delete && p.kind == Delete {
      CommuteDeletes(t, f, p, y, x);
    }
  }

  // ----- All pending edits -----

  lemma {:induction false} RebaseLength(pending: seq<Operation>, f: Operation)
    ensures |Rebase(pending, f)| == |pending|
  {
    if pending != [] {
      RebaseLength(pending[1..], Carry(f, pending[0]));
    }
  }

  /** Taking `f` first and the rebased edits after it is taking the edits first and then what `f` becomes. */
  lemma {:induction false} RebaseCommutes<A>(t: seq<A>, pending: seq<Operation>, names: seq<A>, f: Operation, y: A)
    requires |names| == |pending| && FitAll(t, pending, names) && InRange(f, |t|)
    ensures |Rebase(pending, f)| == |pending|
    ensures FitAll(Splice(t, f, [y]), Rebase(pending, f), names)
    ensures SpliceAll(Splice(t, f, [y]), Rebase(pending, f), names)
            == Splice(SpliceAll(t, pending, names), Through(pending, f), [y])
    ensures InRange(Through(pending, f), |SpliceAll(t, pending, names)|)
    decreases pending
  {
    RebaseLength(pending, f);
    if pending != [] {
      var p, rest := pending[0], pending[1..];
      CarryCommutes(t, f, p, y, names[0]);
      RebaseCommutes(Splice(t, p, [names[0]]), rest, names[1..], Carry(f, p), y);
      assert Rebase(pending, f)[1..] == Rebase(rest, Carry(f, p));
    }
  }

  lemma {:induction false} RebaseLast(pending: seq<Operation>, op: Operation, f: Operation)
    ensures Rebase(pending + [op], f) == Rebase(pending, f) + [Transform(op, Through(pending, f))]
    decreases pending
  {
    if pending == [] {
      assert [op][1..] == [] && [] + [op] == [op];
      assert Rebase([op], f) == [Transform(op, f)] + Rebase([], Carry(f, op));
    } else {
      assert (pending + [op])[0] == pending[0] && (pending + [op])[1..] == pending[1..] + [op];
      RebaseLast(pending[1..], op, Carry(f, pending[0]));
    }
  }

  lemma {:induction false} SpliceAllMembers<A>(t: seq<A>, pending: seq<Operation>, names: seq<A>, x: A)
    requires |names| == |pending| && x in SpliceAll(t, pending, names)
    ensures x in t || x in names
    decreases pending
  {
    if pending != [] {
      SpliceAllMembers(Splice(t, pending[0], [names[0]]), pending[1..], names[1..], x);
      SpliceMembers(t, pending[0], names[0]);
    }
  }

  lemma SpliceMembers<A>(t: seq<A>, op: Operation, x: A)
    ensures forall y :: y in Splice(t, op, [x]) ==> y in t || y == x
  {
  }

  lemma {:induction false} SpliceAllDistinct<A>(t: seq<A>, pending: seq<Operation>, names: seq<A>)
    requires |names| == |pending| && Distinct(t) && Distinct(names) && forall x :: x in names ==> x !in t
    ensures Distinct(SpliceAll(t, pending, names))
    decreases pending
  {
    if pending != [] {
      SpliceDistinct(t, pending[0], names[0]);
      SpliceMembers(t, pending[0], names[0]);
      assert forall k :: 0 < k < |names| ==> names[k] != names[0];
      SpliceAllDistinct(Splice(t, pending[0], [names[0]]), pending[1..], names[1..]);
    }
  }
}
