/** Concurrent edits, all written against one version and taken by the server in some order. */
module Survivors {
  import opened Operations
  import opened Intention

  /** The log after the server has taken `ops`, in this order, all written against version `base`. */
  function SubmitAll(initial: string, log: seq<Operation>, base: nat, ops: seq<Operation>): seq<Operation> {
    if ops == [] then log
    else
      var earlier := SubmitAll(initial, log, base, ops[..|ops| - 1]);
      earlier + [Ordered(initial, earlier, base, ops[|ops| - 1])]
  }

  function DeletedPositions(ops: seq<Operation>): set<nat> {
    set i | 0 <= i < |ops| && ops[i].kind == Delete :: ops[i].pos
  }

  /** The identities standing at the given positions. */
  function Picked(ids: seq<CharId>, positions: set<nat>): set<CharId> {
    set p | p in positions && p < |ids| :: ids[p]
  }

  /** The members of `t` that are in `keep`. */
  function Only<A(==)>(t: seq<A>, keep: set<A>): seq<A> {
    if t == [] then [] else if t[0] in keep then [t[0]] + Only(t[1..], keep) else Only(t[1..], keep)
  }

  function Members<A(==)>(t: seq<A>): set<A> {
    set x | x in t
  }

  // ----- Filters -----

  lemma {:induction false} OnlyAppend<A>(s: seq<A>, t: seq<A>, keep: set<A>)
    ensures Only(s + t, keep) == Only(s, keep) + Only(t, keep)
  {
    if s == [] {
      assert s + t == t;
    } else {
      OnlyAppend(s[1..], t, keep);
      assert (s + t)[1..] == s[1..] + t;
    }
  }

  lemma {:induction false} OnlyAll<A>(t: seq<A>, keep: set<A>)
    requires forall x :: x in t ==> x in keep
    ensures Only(t, keep) == t
  {
    if t != [] {
      OnlyAll(t[1..], keep);
    }
  }

  lemma {:induction false} OnlyDropping<A>(t: seq<A>, keep: set<A>, gone: set<A>)
    ensures Only(Dropping(t, gone), keep) == Dropping(Only(t, keep), gone)
  {
    if t != [] {
      OnlyDropping(t[1..], keep, gone);
      assert t[0] !in gone ==> Dropping(t, gone)[1..] == Dropping(t[1..], gone);
      assert t[0] in keep ==> Only(t, keep)[1..] == Only(t[1..], keep);
    }
  }

  lemma {:induction false} DroppingTwice<A>(t: seq<A>, gone: set<A>, more: set<A>)
    ensures Dropping(Dropping(t, gone), more) == Dropping(t, gone + more)
  {
    if t != [] {
      DroppingTwice(t[1..], gone, more);
      assert t[0] !in gone ==> Dropping(t, gone)[1..] == Dropping(t[1..], gone);
    }
  }

  lemma {:induction false} DroppingMembers<A>(t: seq<A>, gone: set<A>, x: A)
    ensures x in Dropping(t, gone) <==> x in t && x !in gone
  {
    if t != [] {
      DroppingMembers(t[1..], gone, x);
    }
  }

  lemma {:induction false} DroppingNone<A>(t: seq<A>)
    ensures Dropping(t, {}) == t
  {
    if t != [] {
      DroppingNone(t[1..]);
    }
  }

  lemma NewcomerIsIgnored<A>(left: seq<A>, x: A, right: seq<A>, keep: set<A>)
    requires x !in keep
    ensures Only(left + [x] + right, keep) == Only(left + right, keep)
  {
    OnlyAppend(left, [x], keep);
    OnlyAppend(left + [x], right, keep);
    OnlyAppend(left, right, keep);
  }

  lemma InsertedIsIgnored<A>(t: seq<A>, op: Operation, x: A, keep: set<A>)
    requires op.kind == Insert && op.pos <= |t| && x !in keep
    ensures Only(Splice(t, op, [x]), keep) == Only(t, keep)
  {
    NewcomerIsIgnored(t[..op.pos], x, t[op.pos..], keep);
    assert t == t[..op.pos] + t[op.pos..];
  }

  // ----- The log of a round of concurrent edits -----

  ghost predicate Concurrent(initial: string, log: seq<Operation>, ops: seq<Operation>) {
    && ValidLog(initial, log, |log|)
    && forall i :: 0 <= i < |ops| ==> Fits(ops[i], |TextAt(initial, log, |log|)|)
  }

  lemma {:induction false} SubmitAllValid(initial: string, log: seq<Operation>, ops: seq<Operation>)
    requires Concurrent(initial, log, ops)
    ensures var all := SubmitAll(initial, log, |log|, ops);
            log <= all && |all| == |log| + |ops| && ValidLog(initial, all, |all|)
  {
    if ops != [] {
      var most := ops[..|ops| - 1];
      SubmitAllValid(initial, log, most);
      OrderedKeepsLogValid(initial, SubmitAll(initial, log, |log|, most), |log|, ops[|ops| - 1]);
    }
  }

  lemma {:induction false} IdsAtPrefix(n: nat, log: seq<Operation>, more: seq<Operation>, v: nat)
    requires v <= |log| && log <= more
    ensures IdsAt(n, more, v) == IdsAt(n, log, v)
  {
    if v > 0 {
      IdsAtPrefix(n, log, more, v - 1);
    }
  }

  /** What the last of a round of concurrent edits does to the identities and to the delete count. */
  lemma LastEdit(initial: string, log: seq<Operation>, all: seq<Operation>, op: Operation)
    requires log <= all && ValidLog(initial, all, |all|) && Fits(op, |TextAt(initial, log, |log|)|)
    ensures |IdsAt(|initial|, log, |log|)| == |TextAt(initial, log, |log|)|
    ensures var base, ids := IdsAt(|initial|, log, |log|), IdsAt(|initial|, all, |all|);
            var last := Ordered(initial, all, |log|, op);
            var ids' := IdsAt(|initial|, all + [last], |all| + 1);
            && (op.kind == Delete ==> ids' == Without(ids, base[op.pos])
                                      && (last.kind == Delete <==> base[op.pos] in ids))
            && (op.kind != Delete ==> last.kind != Delete && Only(ids', Members(base)) == Only(ids, Members(base)))
  {
    var n, v := |initial|, |all|;
    var last := Ordered(initial, all, |log|, op);
    IdsAtPrefix(n, log, all, |log|);
    IdsAtPrefix(n, all, all + [last], v);
    TextAtPrefix(initial, log, all, |log|);
    ValidLogEarlier(initial, all, |log|, v);
    IdsAtLength(initial, all, |log|);
    IdsAtLength(initial, all, v);
    FoldKeepsKind(op, all, |log|, v);
    FoldKeepsRange(initial, all, op, |log|, v);
    if op.kind == Delete {
      DeleteIntention(initial, all, op, |log|, v);
    } else if op.kind == Insert {
      var base := IdsAt(n, log, |log|);
      if Typed(v + 1) in base {
        IdsAtBorn(n, log, |log|, Typed(v + 1));
      }
      InsertedIsIgnored(IdsAt(n, all, v), last, Typed(v + 1), Members(base));
    }
  }

  lemma DeletedPositionsLast(ops: seq<Operation>)
    requires ops != []
    ensures var last := ops[|ops| - 1];
            DeletedPositions(ops)
            == DeletedPositions(ops[..|ops| - 1]) + (if last.kind == Delete then {last.pos} else {})
  {
    var most, last := ops[..|ops| - 1], ops[|ops| - 1];
    forall p | p in DeletedPositions(ops)
      ensures p in DeletedPositions(most) + (if last.kind == Delete then {last.pos} else {})
    {
      var i :| 0 <= i < |ops| && ops[i].kind == Delete && ops[i].pos == p;
      assert i < |most| ==> most[i] == ops[i];
    }
    forall p | p in DeletedPositions(most)
      ensures p in DeletedPositions(ops)
    {
      var i :| 0 <= i < |most| && most[i].kind == Delete && most[i].pos == p;
      assert ops[i] == most[i];
    }
  }

  lemma {:induction false} CountPrefix(log: seq<Operation>, more: seq<Operation>, v: nat, kind: OpKind)
    requires v <= |log| && log <= more
    ensures Count(more, v, kind) == Count(log, v, kind)
  {
    if v > 0 {
      CountPrefix(log, more, v - 1, kind);
    }
  }

  lemma {:induction false} OnlyMembers<A>(t: seq<A>, keep: set<A>, x: A)
    ensures x in Only(t, keep) <==> x in t && x in keep
  {
    if t != [] {
      OnlyMembers(t[1..], keep, x);
    }
  }

  /** Of the text of `log`, `all` has lost the characters at the positions `gone` and no other. */
  ghost predicate HasLost(initial: string, log: seq<Operation>, all: seq<Operation>, gone: set<nat>) {
    var base := IdsAt(|initial|, log, |log|);
    && Only(IdsAt(|initial|, all, |all|), Members(base)) == Dropping(base, Picked(base, gone))
    && Count(all, |all|, Delete) == Count(log, |log|, Delete) + |gone|
  }

  lemma LastDelete(base: seq<CharId>, ids: seq<CharId>, gone: set<nat>, pos: nat)
    requires Distinct(base) && pos < |base|
    requires Only(ids, Members(base)) == Dropping(base, Picked(base, gone))
    ensures Only(Without(ids, base[pos]), Members(base)) == Dropping(base, Picked(base, gone + {pos}))
    ensures base[pos] in ids <==> pos !in gone
  {
    var id := base[pos];
    OnlyDropping(ids, Members(base), {id});
    DroppingTwice(base, Picked(base, gone), {id});
    assert Picked(base, gone + {pos}) == Picked(base, gone) + {id};
    OnlyMembers(ids, Members(base), id);
    DroppingMembers(base, Picked(base, gone), id);
  }

  lemma CountLast(all: seq<Operation>, last: Operation)
    ensures Count(all + [last], |all| + 1, Delete) == Count(all, |all|, Delete) + (if last.kind == Delete then 1 else 0)
  {
    CountPrefix(all, all + [last], |all|, Delete);
  }

  lemma OneMoreGone(gone: set<nat>, pos: nat)
    ensures |gone + {pos}| == |gone| + (if pos in gone then 0 else 1)
  {
    assert pos in gone ==> gone + {pos} == gone;
  }

  lemma LosesByDelete(initial: string, log: seq<Operation>, all: seq<Operation>, gone: set<nat>, op: Operation)
    requires log <= all && ValidLog(initial, all, |all|) && Fits(op, |TextAt(initial, log, |log|)|)
    requires HasLost(initial, log, all, gone) && op.kind == Delete
    ensures HasLost(initial, log, all + [Ordered(initial, all, |log|, op)], gone + {op.pos})
  {
    LastEdit(initial, log, all, op);
    CountLast(all, Ordered(initial, all, |log|, op));
    IdsAtDistinct(|initial|, log, |log|);
    LastDelete(IdsAt(|initial|, log, |log|), IdsAt(|initial|, all, |all|), gone, op.pos);
    OneMoreGone(gone, op.pos);
  }

  lemma LosesNothing(initial: string, log: seq<Operation>, all: seq<Operation>, gone: set<nat>, op: Operation)
    requires log <= all && ValidLog(initial, all, |all|) && Fits(op, |TextAt(initial, log, |log|)|)
    requires HasLost(initial, log, all, gone) && op.kind != Delete
    ensures HasLost(initial, log, all + [Ordered(initial, all, |log|, op)], gone)
  {
    LastEdit(initial, log, all, op);
    CountLast(all, Ordered(initial, all, |log|, op));
  }

  lemma LosesOneMore(initial: string, log: seq<Operation>, all: seq<Operation>, gone: set<nat>, op: Operation)
    requires log <= all && ValidLog(initial, all, |all|) && Fits(op, |TextAt(initial, log, |log|)|)
    requires HasLost(initial, log, all, gone)
    ensures HasLost(initial, log, all + [Ordered(initial, all, |log|, op)],
                    gone + (if op.kind == Delete then {op.pos} else {}))
  {
    if op.kind == Delete {
      LosesByDelete(initial, log, all, gone, op);
    } else {
      LosesNothing(initial, log, all, gone, op);
      assert gone + {} == gone;
    }
  }

  /** Survivors do not depend on the order: whatever order a round of concurrent edits is taken in, the
      old characters left, in order, are the old version minus the deleted positions; and the deletes
      that take effect are exactly as many as there are distinct deleted positions. */
  lemma {:induction false} SurvivorsExact(initial: string, log: seq<Operation>, ops: seq<Operation>)
    requires Concurrent(initial, log, ops)
    ensures HasLost(initial, log, SubmitAll(initial, log, |log|, ops), DeletedPositions(ops))
  {
    var base := IdsAt(|initial|, log, |log|);
    if ops == [] {
      OnlyAll(base, Members(base));
      DroppingNone(base);
      assert Picked(base, DeletedPositions(ops)) == {};
    } else {
      var most := ops[..|ops| - 1];
      SubmitAllValid(initial, log, most);
      SurvivorsExact(initial, log, most);
      DeletedPositionsLast(ops);
      LosesOneMore(initial, log, SubmitAll(initial, log, |log|, most), DeletedPositions(most), ops[|ops| - 1]);
    }
  }

  // ----- Two orders of the same edits -----

  lemma PermutationDeletes(ops: seq<Operation>, other: seq<Operation>)
    requires multiset(ops) == multiset(other)
    ensures DeletedPositions(ops) == DeletedPositions(other)
  {
    forall x ensures x in ops <==> x in other {
      assert x in ops <==> x in multiset(ops);
      assert x in other <==> x in multiset(other);
    }
    DeletedPositionsByMember(ops);
    DeletedPositionsByMember(other);
  }

  lemma DeletedPositionsByMember(ops: seq<Operation>)
    ensures DeletedPositions(ops) == set op | op in ops && op.kind == Delete :: op.pos
  {
    forall op | op in ops && op.kind == Delete
      ensures op.pos in DeletedPositions(ops)
    {
      var i :| 0 <= i < |ops| && ops[i] == op;
    }
  }

  /** Any two orders of the same concurrent edits leave the same old characters. */
  lemma SurvivorsOrderIndependent(initial: string, log: seq<Operation>, ops: seq<Operation>, other: seq<Operation>)
    requires Concurrent(initial, log, ops) && multiset(ops) == multiset(other)
    ensures var one, two := SubmitAll(initial, log, |log|, ops), SubmitAll(initial, log, |log|, other);
            var base := Members(IdsAt(|initial|, log, |log|));
            && Only(IdsAt(|initial|, one, |one|), base) == Only(IdsAt(|initial|, two, |two|), base)
            && Count(one, |one|, Delete) == Count(two, |two|, Delete)
  {
    forall i | 0 <= i < |other|
      ensures Fits(other[i], |TextAt(initial, log, |log|)|)
    {
      assert other[i] in multiset(other);
      assert other[i] in ops;
    }
    PermutationDeletes(ops, other);
    SurvivorsExact(initial, log, ops);
    SurvivorsExact(initial, log, other);
  }
}
