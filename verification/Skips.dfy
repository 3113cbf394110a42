/** An ACK is taken without looking at its version. What it leaves on show when it skips versions, exactly. */
module Skips {
  import opened Operations
  import opened Intention
  import opened Messages
  import opened Documents
  import opened Clients
  import opened ClientRuns
  import opened Fidelity

  // ----- Which characters the skipped entries made and unmade -----

  /** Characters of version w that are not in version v: typed in between, and still there. */
  function Created(d: Doc, v: nat, w: nat): set<CharId>
    requires v <= w <= Version(d)
  {
    set x | x in Ids(d, w) && x !in Ids(d, v)
  }

  /** Characters of version v that are no longer in version w. */
  function Gone(d: Doc, v: nat, w: nat): set<CharId>
    requires v <= w <= Version(d)
  {
    set x | x in Ids(d, v) && x !in Ids(d, w)
  }

  function Removed(ids: seq<CharId>, op: Operation): set<CharId> {
    if op.kind == Delete && op.pos < |ids| then {ids[op.pos]} else {}
  }

  /** Of what was created in between, nothing is left but what the operation of version w itself deletes; and
      what it deletes on version v is what has gone in between, or else what it deletes in its turn. */
  predicate SkippedHarmlessly(d: Doc, v: nat, w: nat)
    requires v < w <= Version(d)
  {
    var op := d.log[w - 1].op;
    var inTurn := Removed(Ids(d, w - 1), op);
    && Created(d, v, w - 1) <= inTurn
    && Gone(d, v, w - 1) + (inTurn - Created(d, v, w - 1)) == Removed(Ids(d, v), op)
  }

  // ----- The same members are the same sequence -----

  /** Characters common to s and t stand in the same order in both. */
  ghost predicate SameOrder<A>(s: seq<A>, t: seq<A>) {
    forall i, j, i', j' :: 0 <= i < j < |s| && 0 <= i' < |t| && 0 <= j' < |t| && s[i] == t[i'] && s[j] == t[j'] ==>
                             i' < j'
  }

  lemma {:induction false} OrderedMembers<A>(s: seq<A>, t: seq<A>)
    requires Distinct(s) && Distinct(t) && SameOrder(s, t) && forall x :: x in s <==> x in t
    ensures s == t
  {
    assert t != [] ==> t[0] in t;
    if s != [] {
      assert s[0] in s;
      var p :| 0 <= p < |t| && t[p] == s[0];
      var q :| 0 <= q < |s| && s[q] == t[0];
      assert p == 0;
      forall x ensures x in s[1..] <==> x in t[1..] {
        RestMembers(s, x);
        RestMembers(t, x);
      }
      OrderedMembers(s[1..], t[1..]);
    }
  }

  lemma RestMembers<A>(s: seq<A>, x: A)
    requires Distinct(s) && s != []
    ensures x in s[1..] <==> x in s && x != s[0]
  {
    if x in s && x != s[0] {
      var i :| 0 <= i < |s| && s[i] == x;
      assert s[1..][i - 1] == x;
    }
  }

  lemma SpliceRemoves(ids: seq<CharId>, op: Operation, tag: CharId, x: CharId)
    requires Distinct(ids) && tag !in ids
    ensures x in Splice(ids, op, [tag]) <==>
            (x in ids && x !in Removed(ids, op)) || (op.kind == Insert && x == tag)
  {
    var after := Splice(ids, op, [tag]);
    if x in ids && x !in Removed(ids, op) {
      var i :| 0 <= i < |ids| && ids[i] == x;
      var p := Min(op.pos, |ids|);
      assert after[if op.kind == Insert && p <= i then i + 1
                   else if op.kind == Delete && op.pos < i then i - 1 else i] == x;
    }
    if op.kind == Insert {
      assert after[Min(op.pos, |ids|)] == tag;
    }
  }

  lemma VersionsInOrder(d: Doc, v: nat, w: nat)
    requires ValidDoc(d) && v <= w <= Version(d)
    ensures SameOrder(Ids(d, v), Ids(d, w))
  {
    ValidLogEarlier(d.initial, Ops(d.log), w, Version(d));
    forall i, j, i', j' | 0 <= i < j < |Ids(d, v)| && 0 <= i' < |Ids(d, w)| && 0 <= j' < |Ids(d, w)|
                          && Ids(d, v)[i] == Ids(d, w)[i'] && Ids(d, v)[j] == Ids(d, w)[j']
      ensures i' < j'
    {
      OrderKept(d.initial, Ops(d.log), v, w, i, j, i', j');
    }
  }

  lemma DroppingKeepsOrder(s: seq<CharId>, p: nat, t: seq<CharId>)
    requires p < |s| && SameOrder(s, t)
    ensures SameOrder(s[..p] + s[p + 1..], t)
  {
    var less := s[..p] + s[p + 1..];
    assert forall i :: 0 <= i < |less| ==> less[i] == s[if i < p then i else i + 1];
  }

  // ----- Exactly -----

  /** The operation of version w on the characters of version v. */
  function Skipping(d: Doc, v: nat, w: nat): seq<CharId>
    requires v < w <= Version(d)
  {
    Splice(Ids(d, v), d.log[w - 1].op, [CharId.Typed(w)])
  }

  lemma FreshTyped(d: Doc, v: nat, w: nat)
    requires v < w <= Version(d)
    ensures Distinct(Ids(d, v)) && CharId.Typed(w) !in Ids(d, v)
  {
    IdsAtDistinct(|d.initial|, Ops(d.log), v);
    if CharId.Typed(w) in Ids(d, v) {
      IdsAtBorn(|d.initial|, Ops(d.log), v, CharId.Typed(w));
    }
  }

  lemma MembersExactly(d: Doc, v: nat, w: nat)
    requires v < w <= Version(d)
    ensures Ids(d, w) == Splice(Ids(d, w - 1), d.log[w - 1].op, [CharId.Typed(w)])
    ensures (forall x :: x in Skipping(d, v, w) <==> x in Ids(d, w)) <==> SkippedHarmlessly(d, v, w)
  {
    var earlier, before, op, tag := Ids(d, v), Ids(d, w - 1), d.log[w - 1].op, CharId.Typed(w);
    FreshTyped(d, v, w);
    FreshTyped(d, w - 1, w);
    forall x
      ensures x in Skipping(d, v, w) <==>
              (x in earlier && x !in Removed(earlier, op)) || (op.kind == Insert && x == tag)
    {
      SpliceRemoves(earlier, op, tag, x);
    }
    forall x
      ensures x in Ids(d, w) <==> (x in before && x !in Removed(before, op)) || (op.kind == Insert && x == tag)
    {
      SpliceRemoves(before, op, tag, x);
    }
    RemovedThere(earlier, op);
    RemovedThere(before, op);
    SetsAgree(d, v, w);
  }

  lemma RemovedThere(ids: seq<CharId>, op: Operation)
    ensures forall x :: x in Removed(ids, op) ==> x in ids
  {
  }

  /** Taking X from what was there and Y from what was there before version w leaves the same. */
  ghost predicate LeavesSame(d: Doc, v: nat, w: nat)
    requires v < w <= Version(d)
  {
    forall x :: (x in Ids(d, v) && x !in Removed(Ids(d, v), d.log[w - 1].op)) <==>
                (x in Ids(d, w - 1) && x !in Removed(Ids(d, w - 1), d.log[w - 1].op))
  }

  lemma SetsAgree(d: Doc, v: nat, w: nat)
    requires v < w <= Version(d)
    ensures LeavesSame(d, v, w) <==> SkippedHarmlessly(d, v, w)
  {
    var X, Y := Removed(Ids(d, v), d.log[w - 1].op), Removed(Ids(d, w - 1), d.log[w - 1].op);
    var created, gone := Created(d, v, w - 1), Gone(d, v, w - 1);
    if LeavesSame(d, v, w) {
      assert created <= Y;
      assert gone + (Y - created) == X;
    }
  }

  lemma SequencesExactly(d: Doc, v: nat, w: nat)
    requires ValidDoc(d) && v < w <= Version(d) && forall x :: x in Skipping(d, v, w) <==> x in Ids(d, w)
    ensures Skipping(d, v, w) == Ids(d, w)
  {
    var earlier, op, tag := Ids(d, v), d.log[w - 1].op, CharId.Typed(w);
    FreshTyped(d, v, w);
    FreshTyped(d, w - 1, w);
    MembersExactly(d, v, w);
    if op.kind == Insert {
      SetsAgree(d, v, w);
      VersionsInOrder(d, v, w - 1);
      OrderedMembers(earlier, Ids(d, w - 1));
    } else {
      VersionsInOrder(d, v, w);
      if op.kind == Delete && op.pos < |earlier| {
        DroppingKeepsOrder(earlier, op.pos, Ids(d, w));
      }
      SpliceDistinct(earlier, op, tag);
      IdsAtDistinct(|d.initial|, Ops(d.log), w);
      OrderedMembers(Skipping(d, v, w), Ids(d, w));
    }
  }

  // ----- On the text -----

  /** The character is what the identity stands for. */
  ghost predicate SpelledBy(d: Doc, ch: char, id: CharId) {
    && Born(id, |d.initial|, Version(d)) && (id.Typed? ==> |Ops(d.log)[id.version - 1].ch| == 1)
    && ch == CharOf(d.initial, Ops(d.log), id)
  }

  ghost predicate Spells(d: Doc, text: string, ids: seq<CharId>) {
    |text| == |ids| && forall j :: 0 <= j < |ids| ==> SpelledBy(d, text[j], ids[j])
  }

  lemma SpliceSpells(d: Doc, text: string, ids: seq<CharId>, op: Operation, tag: CharId)
    requires Spells(d, text, ids) && (op.kind == Insert ==> |op.ch| == 1 && SpelledBy(d, op.ch[0], tag))
    ensures Spells(d, ApplyOp(text, op), Splice(ids, op, [tag]))
  {
    if op.kind == Insert {
      assert op.ch == [op.ch[0]];
    }
  }

  lemma VersionSpells(d: Doc, v: nat)
    requires ValidDoc(d) && v <= Version(d)
    ensures Spells(d, TextOf(d, v), Ids(d, v))
  {
    ValidLogEarlier(d.initial, Ops(d.log), v, Version(d));
    IdsAtLength(d.initial, Ops(d.log), v);
    forall j | 0 <= j < |Ids(d, v)|
      ensures SpelledBy(d, TextOf(d, v)[j], Ids(d, v)[j])
    {
      IdsNameCharacters(d.initial, Ops(d.log), v, j);
    }
  }

  lemma SkippingSpells(d: Doc, v: nat, w: nat)
    requires ValidDoc(d) && v < w <= Version(d)
    ensures Spells(d, ApplyOp(TextOf(d, v), d.log[w - 1].op), Skipping(d, v, w))
  {
    var ops := Ops(d.log);
    ValidLogEarlier(d.initial, ops, w, |ops|);
    VersionSpells(d, v);
    assert ops[w - 1] == d.log[w - 1].op && Fits(ops[w - 1], |TextOf(d, w - 1)|);
    SpliceSpells(d, TextOf(d, v), Ids(d, v), d.log[w - 1].op, CharId.Typed(w));
  }

  /** When a matching ACK skips versions, the client is left, character by character, with the version of the
      ACK exactly when the skipped entries did no harm; and then that version is what it shows. */
  lemma SkippingAckExact(d: Doc, c: Client, m: ServerMessage)
    requires ValidDoc(d) && Authentic(d, m) && Shows(d, c) && MatchingAck(c, m) && c.version < m.version
    ensures Skipping(d, c.version, m.version) == Ids(d, m.version) <==> SkippedHarmlessly(d, c.version, m.version)
    ensures Spells(d, Handle(c, m).content, Skipping(d, c.version, m.version))
    ensures SkippedHarmlessly(d, c.version, m.version) ==> Shows(d, Handle(c, m))
  {
    var v, w := c.version, m.version;
    MembersExactly(d, v, w);
    SkippingSpells(d, v, w);
    if SkippedHarmlessly(d, v, w) {
      SequencesExactly(d, v, w);
      VersionSpells(d, w);
      assert ApplyOp(TextOf(d, v), d.log[w - 1].op) == TextOf(d, w);
    }
  }
}
