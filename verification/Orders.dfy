/** When the order of a round of concurrent edits matters: exactly when two inserts of different characters
    have nothing left between their gaps. */
module Orders {
  import opened Operations
  import opened Intention
  import opened Permutations
  import opened Survivors

  predicate AllDeleted(ops: seq<Operation>, p: nat, q: nat) {
    forall k :: p <= k < q ==> k in DeletedPositions(ops)
  }

  /** Two inserts, not of the same character, the first not behind the second. */
  predicate Clash(a: Operation, b: Operation) {
    a.kind == b.kind == Insert && a.ch != b.ch && a.pos <= b.pos
  }

  /** Between the gaps of any two inserts of different characters some character stays. */
  predicate Separated(ops: seq<Operation>) {
    forall i, j :: 0 <= i < |ops| && 0 <= j < |ops| && Clash(ops[i], ops[j]) ==>
                     !AllDeleted(ops, ops[i].pos, ops[j].pos)
  }

  /** The text once the server has taken `ops` in this order. */
  function Outcome(initial: string, log: seq<Operation>, ops: seq<Operation>): string {
    var all := SubmitAll(initial, log, |log|, ops);
    TextAt(initial, all, |all|)
  }

  ghost predicate OrderFree(initial: string, log: seq<Operation>, ops: seq<Operation>) {
    forall other :: multiset(other) == multiset(ops) ==> Outcome(initial, log, other) == Outcome(initial, log, ops)
  }

  // ----- Where every character of the outcome comes from -----

  /** A character of the base text, or the one typed by the m-th operation. */
  datatype Tag = Old(index: nat) | New(m: nat)

  lemma SpliceMap<A, B>(f: A -> B, t: seq<A>, op: Operation, x: A)
    ensures Map(f, Splice(t, op, [x])) == Splice(Map(f, t), op, [f(x)])
  {
  }

  /** The last operation, as the server records it. */
  function Last(initial: string, log: seq<Operation>, ops: seq<Operation>): Operation
    requires ops != []
  {
    Ordered(initial, SubmitAll(initial, log, |log|, ops[..|ops| - 1]), |log|, ops[|ops| - 1])
  }

  function Tags(initial: string, log: seq<Operation>, ops: seq<Operation>): seq<Tag> {
    if ops == [] then seq(|TextAt(initial, log, |log|)|, i requires 0 <= i => Old(i))
    else Splice(Tags(initial, log, ops[..|ops| - 1]), Last(initial, log, ops), [New(|ops| - 1)])
  }

  predicate Sound(tag: Tag, len: nat, ops: seq<Operation>) {
    match tag
    case Old(i) => i < len
    case New(m) => m < |ops| && ops[m].kind == Insert && |ops[m].ch| == 1
  }

  /** The identity behind a tag. */
  function IdOf(base: seq<CharId>, v: nat): Tag -> CharId {
    (tag: Tag) => match tag
      case Old(i) => if i < |base| then base[i] else Original(0)
      case New(m) => Typed(v + 1 + m)
  }

  /** The character behind a tag. */
  function CharOfTag(base: string, ops: seq<Operation>): Tag -> char {
    (tag: Tag) => match tag
      case Old(i) => if i < |base| then base[i] else ' '
      case New(m) => if m < |ops| && ops[m].ch != "" then ops[m].ch[0] else ' '
  }

  lemma {:induction false} TagsSound(initial: string, log: seq<Operation>, ops: seq<Operation>)
    requires Concurrent(initial, log, ops)
    ensures forall tag :: tag in Tags(initial, log, ops) ==> Sound(tag, |TextAt(initial, log, |log|)|, ops)
  {
    if ops != [] {
      var most := ops[..|ops| - 1];
      TagsSound(initial, log, most);
      LastKind(initial, log, ops);
      var tags, len := Tags(initial, log, ops), |TextAt(initial, log, |log|)|;
      forall tag | tag in tags ensures Sound(tag, len, ops) {
        assert tag in Tags(initial, log, most) || (tag == New(|ops| - 1) && Last(initial, log, ops).kind == Insert);
      }
    }
  }

  lemma LastKind(initial: string, log: seq<Operation>, ops: seq<Operation>)
    requires ops != [] && Concurrent(initial, log, ops)
    ensures var last, op := Last(initial, log, ops), ops[|ops| - 1];
            && (op.kind != Delete ==> last.kind == op.kind && last.ch == op.ch)
            && (op.kind == Delete ==> last.kind == Delete || last.kind == Noop)
  {
    var most := ops[..|ops| - 1];
    var all := SubmitAll(initial, log, |log|, most);
    SubmitAllValid(initial, log, most);
    FoldKeepsKind(ops[|ops| - 1], all, |log|, |all|);
    TextAtPrefix(initial, log, all, |log|);
    FoldKeepsRange(initial, all, ops[|ops| - 1], |log|, |all|);
  }

  lemma NameLast(n: nat, base: seq<CharId>, v: nat, all: seq<Operation>, tags: seq<Tag>, last: Operation, m: nat)
    requires IdsAt(n, all, |all|) == Map(IdOf(base, v), tags) && |all| == v + m
    ensures IdsAt(n, all + [last], |all| + 1) == Map(IdOf(base, v), Splice(tags, last, [New(m)]))
  {
    IdsAtLast(n, all, last);
    SpliceMap(IdOf(base, v), tags, last, New(m));
  }

  ghost predicate Named(initial: string, log: seq<Operation>, ops: seq<Operation>) {
    var all := SubmitAll(initial, log, |log|, ops);
    IdsAt(|initial|, all, |all|) == Map(IdOf(IdsAt(|initial|, log, |log|), |log|), Tags(initial, log, ops))
  }

  lemma NobodyNamed(initial: string, log: seq<Operation>)
    requires ValidLog(initial, log, |log|)
    ensures Named(initial, log, [])
  {
    IdsAtLength(initial, log, |log|);
    var base := IdsAt(|initial|, log, |log|);
    assert Map(IdOf(base, |log|), Tags(initial, log, [])) == base;
  }

  lemma OneMoreNamed(initial: string, log: seq<Operation>, ops: seq<Operation>)
    requires Concurrent(initial, log, ops) && ops != [] && Named(initial, log, ops[..|ops| - 1])
    ensures Named(initial, log, ops)
  {
    var most := ops[..|ops| - 1];
    SubmitAllValid(initial, log, most);
    NameLast(|initial|, IdsAt(|initial|, log, |log|), |log|, SubmitAll(initial, log, |log|, most),
             Tags(initial, log, most), Last(initial, log, ops), |most|);
  }

  /** The identities of the outcome, read off the tags. */
  lemma {:induction false} TagsName(initial: string, log: seq<Operation>, ops: seq<Operation>)
    requires Concurrent(initial, log, ops)
    ensures Named(initial, log, ops)
  {
    if ops == [] {
      NobodyNamed(initial, log);
    } else {
      TagsName(initial, log, ops[..|ops| - 1]);
      OneMoreNamed(initial, log, ops);
    }
  }

  lemma IdsAtLast(n: nat, all: seq<Operation>, last: Operation)
    ensures IdsAt(n, all + [last], |all| + 1) == Splice(IdsAt(n, all, |all|), last, [Typed(|all| + 1)])
  {
    IdsAtPrefix(n, all, all + [last], |all|);
  }

  lemma CharsOfMore(base: string, most: seq<Operation>, op: Operation, tags: seq<Tag>)
    requires forall tag :: tag in tags ==> Sound(tag, |base|, most)
    ensures Map(CharOfTag(base, most + [op]), tags) == Map(CharOfTag(base, most), tags)
  {
    forall j | 0 <= j < |tags| ensures CharOfTag(base, most + [op])(tags[j]) == CharOfTag(base, most)(tags[j]) {
      assert Sound(tags[j], |base|, most);
    }
  }

  lemma SpellLast(base: string, most: seq<Operation>, op: Operation, tags: seq<Tag>, text: string, last: Operation)
    requires text == Map(CharOfTag(base, most), tags) && forall tag :: tag in tags ==> Sound(tag, |base|, most)
    requires last.kind == Insert ==> last.ch == op.ch && |op.ch| == 1
    ensures ApplyOp(text, last) == Map(CharOfTag(base, most + [op]), Splice(tags, last, [New(|most|)]))
  {
    var f := CharOfTag(base, most + [op]);
    CharsOfMore(base, most, op, tags);
    SpliceMap(f, tags, last, New(|most|));
    assert last.kind == Insert ==> [f(New(|most|))] == last.ch;
  }

  lemma OutcomeLast(initial: string, log: seq<Operation>, ops: seq<Operation>)
    requires ops != []
    ensures Outcome(initial, log, ops) == ApplyOp(Outcome(initial, log, ops[..|ops| - 1]), Last(initial, log, ops))
  {
    var all, last := SubmitAll(initial, log, |log|, ops[..|ops| - 1]), Last(initial, log, ops);
    TextAtPrefix(initial, all, all + [last], |all|);
  }

  /** The text of the outcome, read off the tags. */
  lemma {:induction false} TagsSpell(initial: string, log: seq<Operation>, ops: seq<Operation>)
    requires Concurrent(initial, log, ops)
    ensures Outcome(initial, log, ops) == Map(CharOfTag(TextAt(initial, log, |log|), ops), Tags(initial, log, ops))
  {
    if ops != [] {
      var most, op := ops[..|ops| - 1], ops[|ops| - 1];
      TagsSpell(initial, log, most);
      TagsSound(initial, log, most);
      LastKind(initial, log, ops);
      OutcomeLast(initial, log, ops);
      assert ops == most + [op];
      SpellLast(TextAt(initial, log, |log|), most, op, Tags(initial, log, most), Outcome(initial, log, most),
                Last(initial, log, ops));
    }
  }

  // ----- Which base characters are left -----

  lemma {:induction false} OldLeft(initial: string, log: seq<Operation>, ops: seq<Operation>)
    requires Concurrent(initial, log, ops)
    ensures |IdsAt(|initial|, log, |log|)| == |TextAt(initial, log, |log|)|
    ensures forall i :: 0 <= i < |TextAt(initial, log, |log|)| ==>
                          (Old(i) in Tags(initial, log, ops) <==> i !in DeletedPositions(ops))
    ensures Distinct(Tags(initial, log, ops))
  {
    var base, all := IdsAt(|initial|, log, |log|), SubmitAll(initial, log, |log|, ops);
    var ids, tags, f := IdsAt(|initial|, all, |all|), Tags(initial, log, ops), IdOf(base, |log|);
    IdsAtLength(initial, log, |log|);
    TagsName(initial, log, ops);
    IdsAtDistinct(|initial|, all, |all|);
    IdsAtDistinct(|initial|, log, |log|);
    TagsSound(initial, log, ops);
    SurvivorsExact(initial, log, ops);
    forall i | 0 <= i < |base|
      ensures Old(i) in tags <==> i !in DeletedPositions(ops)
    {
      OnlyMembers(ids, Members(base), base[i]);
      DroppingMembers(base, Picked(base, DeletedPositions(ops)), base[i]);
      PickedExactly(base, DeletedPositions(ops), i);
      OldIsBase(base, log, tags, i, |initial|, ops);
    }
    forall j, k | 0 <= j < k < |tags| ensures tags[j] != tags[k] {
      assert ids[j] == f(tags[j]) && ids[k] == f(tags[k]);
    }
  }

  lemma PickedExactly(base: seq<CharId>, gone: set<nat>, i: nat)
    requires Distinct(base) && i < |base|
    ensures base[i] in Picked(base, gone) <==> i in gone
  {
    if base[i] in Picked(base, gone) {
      var p :| p in gone && p < |base| && base[p] == base[i];
    }
  }

  lemma OldIsBase(base: seq<CharId>, log: seq<Operation>, tags: seq<Tag>, i: nat, n: nat, ops: seq<Operation>)
    requires base == IdsAt(n, log, |log|) && Distinct(base) && i < |base|
    requires forall tag :: tag in tags ==> Sound(tag, |base|, ops)
    ensures Old(i) in tags <==> base[i] in Map(IdOf(base, |log|), tags)
  {
    var f := IdOf(base, |log|);
    if Old(i) in tags {
      var j :| 0 <= j < |tags| && tags[j] == Old(i);
      assert Map(f, tags)[j] == base[i];
    }
    if base[i] in Map(f, tags) {
      var j :| 0 <= j < |tags| && Map(f, tags)[j] == base[i];
      IdsAtBorn(n, log, |log|, base[i]);
      assert f(tags[j]) == base[i] && Sound(tags[j], |base|, ops);
    }
  }

  // ----- The outcome is sorted by what stays -----

  /** How many of the positions below p stay. */
  function Rank(gone: set<nat>, p: nat): nat {
    if p == 0 then 0 else Rank(gone, p - 1) + (if p - 1 in gone then 0 else 1)
  }

  /** A character that stays has an odd key of its own; all that goes or comes between two such characters
      has the even key between theirs. */
  function KeyOf(gone: set<nat>, ops: seq<Operation>): Tag -> nat {
    (tag: Tag) => match tag
      case Old(i) => 2 * Rank(gone, i) + (if i in gone then 0 else 1)
      case New(m) => if m < |ops| then 2 * Rank(gone, ops[m].pos) else 0
  }

  lemma {:induction false} RankMonotonic(gone: set<nat>, p: nat, q: nat)
    requires p <= q
    ensures Rank(gone, p) <= Rank(gone, q)
  {
    if p < q {
      RankMonotonic(gone, p, q - 1);
    }
  }

  /** Where the rank grows, some position stays; the first such has the lower rank. */
  lemma {:induction false} RankGrows(gone: set<nat>, p: nat, q: nat) returns (s: nat)
    requires p <= q && Rank(gone, p) < Rank(gone, q)
    ensures p <= s < q && s !in gone && Rank(gone, s) == Rank(gone, p)
  {
    if Rank(gone, p) < Rank(gone, q - 1) {
      s := RankGrows(gone, p, q - 1);
    } else {
      RankMonotonic(gone, p, q - 1);
      s := q - 1;
    }
  }

  lemma {:induction false} RankFlat(gone: set<nat>, p: nat, q: nat)
    requires p <= q && Rank(gone, p) == Rank(gone, q)
    ensures forall k :: p <= k < q ==> k in gone
  {
    if p < q {
      RankMonotonic(gone, p, q - 1);
      RankFlat(gone, p, q - 1);
    }
  }

  /** The tags of a round in progress, of which every position outside `gone` stays. */
  ghost predicate InProgress(tags: seq<Tag>, len: nat, ops: seq<Operation>, gone: set<nat>) {
    && (forall tag :: tag in tags ==> Sound(tag, len, ops))
    && (forall m :: 0 <= m < |ops| && ops[m].kind == Insert ==> ops[m].pos <= len)
    && (forall i :: 0 <= i < len && i !in gone ==> Old(i) in tags)
  }

  /** Gap p of the base text is gap q of the tags. */
  ghost predicate CutAt(tags: seq<Tag>, p: nat, q: nat) {
    forall j, i: nat :: 0 <= j < |tags| && tags[j] == Old(i) ==> (j < q <==> i < p)
  }

  /** Where the rank grows from gap p on, some character that stays is right of that gap. */
  lemma StaysRight(tags: seq<Tag>, len: nat, ops: seq<Operation>, gone: set<nat>, p: nat, q: nat, r: nat)
    returns (k: nat)
    requires InProgress(tags, len, ops, gone) && CutAt(tags, p, q) && r <= len && Rank(gone, p) < Rank(gone, r)
    ensures q <= k < |tags| && Map(KeyOf(gone, ops), tags)[k] == 2 * Rank(gone, p) + 1
  {
    if r < p {
      RankMonotonic(gone, r, p);
    }
    var s := RankGrows(gone, p, r);
    k :| 0 <= k < |tags| && tags[k] == Old(s);
  }

  lemma StaysLeft(tags: seq<Tag>, len: nat, ops: seq<Operation>, gone: set<nat>, p: nat, q: nat, r: nat)
    returns (k: nat)
    requires InProgress(tags, len, ops, gone) && CutAt(tags, p, q) && p <= len && Rank(gone, r) < Rank(gone, p)
    ensures k < q && k < |tags| && Map(KeyOf(gone, ops), tags)[k] == 2 * Rank(gone, r) + 1
  {
    if p < r {
      RankMonotonic(gone, p, r);
    }
    var s := RankGrows(gone, r, p);
    k :| 0 <= k < |tags| && tags[k] == Old(s);
  }

  lemma LeftOfGap(tags: seq<Tag>, len: nat, ops: seq<Operation>, gone: set<nat>, p: nat, q: nat, j: nat)
    requires InProgress(tags, len, ops, gone) && CutAt(tags, p, q) && Sorted(Map(KeyOf(gone, ops), tags))
    requires p <= len && j < q <= |tags|
    ensures Map(KeyOf(gone, ops), tags)[j] <= 2 * Rank(gone, p)
  {
    assert Sound(tags[j], len, ops);
    match tags[j]
    case Old(i) => RankMonotonic(gone, i + 1, p);
    case New(m) =>
      if Rank(gone, p) < Rank(gone, ops[m].pos) {
        var _ := StaysRight(tags, len, ops, gone, p, q, ops[m].pos);
      }
  }

  lemma RightOfGap(tags: seq<Tag>, len: nat, ops: seq<Operation>, gone: set<nat>, p: nat, q: nat, j: nat)
    requires InProgress(tags, len, ops, gone) && CutAt(tags, p, q) && Sorted(Map(KeyOf(gone, ops), tags))
    requires p <= len && q <= j < |tags|
    ensures 2 * Rank(gone, p) <= Map(KeyOf(gone, ops), tags)[j]
  {
    assert Sound(tags[j], len, ops);
    match tags[j]
    case Old(i) => RankMonotonic(gone, p, i);
    case New(m) =>
      if Rank(gone, ops[m].pos) < Rank(gone, p) {
        var _ := StaysLeft(tags, len, ops, gone, p, q, ops[m].pos);
      }
  }

  lemma InsertKeepsSorted(keys: seq<nat>, last: Operation, key: nat)
    requires Sorted(keys) && (last.kind == Insert ==> last.pos <= |keys|)
    requires last.kind == Insert ==> forall j :: 0 <= j < last.pos ==> keys[j] <= key
    requires last.kind == Insert ==> forall j :: last.pos <= j < |keys| ==> key <= keys[j]
    ensures Sorted(Splice(keys, last, [key]))
  {
  }

  lemma KeysOfMore(gone: set<nat>, most: seq<Operation>, op: Operation, tags: seq<Tag>, len: nat)
    requires forall tag :: tag in tags ==> Sound(tag, len, most)
    ensures Map(KeyOf(gone, most + [op]), tags) == Map(KeyOf(gone, most), tags)
  {
    forall j | 0 <= j < |tags| ensures KeyOf(gone, most + [op])(tags[j]) == KeyOf(gone, most)(tags[j]) {
      assert Sound(tags[j], len, most);
    }
  }

  /** An insert of the round lands in its gap among the tags. */
  lemma LastCuts(initial: string, log: seq<Operation>, ops: seq<Operation>)
    requires ops != [] && Concurrent(initial, log, ops) && ops[|ops| - 1].kind == Insert
    ensures var tags, last := Tags(initial, log, ops[..|ops| - 1]), Last(initial, log, ops);
            last.kind == Insert && last.pos <= |tags| && CutAt(tags, ops[|ops| - 1].pos, last.pos)
  {
    var most, op, n, v := ops[..|ops| - 1], ops[|ops| - 1], |initial|, |log|;
    var all, base := SubmitAll(initial, log, v, most), IdsAt(n, log, v);
    var tags, ids := Tags(initial, log, most), IdsAt(n, all, |all|);
    SubmitAllValid(initial, log, most);
    IdsAtPrefix(n, log, all, v);
    TextAtPrefix(initial, log, all, v);
    FoldKeepsRange(initial, all, op, v, |all|);
    InsertIntention(initial, all, op, v, |all|);
    LastKind(initial, log, ops);
    TagsName(initial, log, most);
    TagsSound(initial, log, most);
    IdsAtLength(initial, all, |all|);
    IdsAtLength(initial, log, v);
    forall j, i: nat | 0 <= j < |tags| && tags[j] == Old(i)
      ensures j < Last(initial, log, ops).pos <==> i < op.pos
    {
      assert Sound(tags[j], |base|, most);
      assert ids[j] == IdOf(base, v)(tags[j]) == base[i];
    }
  }

  lemma RoundInProgress(initial: string, log: seq<Operation>, ops: seq<Operation>, gone: set<nat>)
    requires Concurrent(initial, log, ops) && DeletedPositions(ops) <= gone
    ensures InProgress(Tags(initial, log, ops), |TextAt(initial, log, |log|)|, ops, gone)
  {
    TagsSound(initial, log, ops);
    OldLeft(initial, log, ops);
  }

  lemma {:induction false} KeysSorted(initial: string, log: seq<Operation>, ops: seq<Operation>, gone: set<nat>)
    requires Concurrent(initial, log, ops) && DeletedPositions(ops) <= gone
    ensures Sorted(Map(KeyOf(gone, ops), Tags(initial, log, ops)))
  {
    if ops == [] {
      BaseSorted(gone, |TextAt(initial, log, |log|)|, Tags(initial, log, ops));
    } else {
      DeletedPositionsLast(ops);
      KeysSorted(initial, log, ops[..|ops| - 1], gone);
      OneMoreSorted(initial, log, ops, gone);
    }
  }

  lemma BaseSorted(gone: set<nat>, len: nat, tags: seq<Tag>)
    requires |tags| == len && forall i :: 0 <= i < len ==> tags[i] == Old(i)
    ensures Sorted(Map(KeyOf(gone, []), tags))
  {
    forall i, j | 0 <= i < j < len ensures KeyOf(gone, [])(tags[i]) <= KeyOf(gone, [])(tags[j]) {
      RankMonotonic(gone, i + 1, j);
    }
  }

  lemma GapFits(tags: seq<Tag>, len: nat, ops: seq<Operation>, gone: set<nat>, p: nat, q: nat)
    requires InProgress(tags, len, ops, gone) && CutAt(tags, p, q) && Sorted(Map(KeyOf(gone, ops), tags))
    requires p <= len && q <= |tags|
    ensures forall j :: 0 <= j < q ==> Map(KeyOf(gone, ops), tags)[j] <= 2 * Rank(gone, p)
    ensures forall j :: q <= j < |tags| ==> 2 * Rank(gone, p) <= Map(KeyOf(gone, ops), tags)[j]
  {
    forall j | 0 <= j < q ensures Map(KeyOf(gone, ops), tags)[j] <= 2 * Rank(gone, p) {
      LeftOfGap(tags, len, ops, gone, p, q, j);
    }
    forall j | q <= j < |tags| ensures 2 * Rank(gone, p) <= Map(KeyOf(gone, ops), tags)[j] {
      RightOfGap(tags, len, ops, gone, p, q, j);
    }
  }

  lemma KeysOfSplice(gone: set<nat>, most: seq<Operation>, op: Operation, tags: seq<Tag>, len: nat, last: Operation)
    requires forall tag :: tag in tags ==> Sound(tag, len, most)
    ensures Map(KeyOf(gone, most + [op]), Splice(tags, last, [New(|most|)]))
            == Splice(Map(KeyOf(gone, most), tags), last, [2 * Rank(gone, op.pos)])
  {
    KeysOfMore(gone, most, op, tags, len);
    SpliceMap(KeyOf(gone, most + [op]), tags, last, New(|most|));
  }

  /** The keys once one operation more has been taken. */
  lemma KeysOfLast(initial: string, log: seq<Operation>, ops: seq<Operation>, gone: set<nat>)
    requires Concurrent(initial, log, ops) && ops != []
    ensures Map(KeyOf(gone, ops), Tags(initial, log, ops))
            == Splice(Map(KeyOf(gone, ops[..|ops| - 1]), Tags(initial, log, ops[..|ops| - 1])), Last(initial, log, ops),
                      [2 * Rank(gone, ops[|ops| - 1].pos)])
  {
    var most, op := ops[..|ops| - 1], ops[|ops| - 1];
    TagsSound(initial, log, most);
    assert ops == most + [op];
    KeysOfSplice(gone, most, op, Tags(initial, log, most), |TextAt(initial, log, |log|)|, Last(initial, log, ops));
  }

  lemma OneMoreSorted(initial: string, log: seq<Operation>, ops: seq<Operation>, gone: set<nat>)
    requires Concurrent(initial, log, ops) && ops != [] && DeletedPositions(ops[..|ops| - 1]) <= gone
    requires Sorted(Map(KeyOf(gone, ops[..|ops| - 1]), Tags(initial, log, ops[..|ops| - 1])))
    ensures Sorted(Map(KeyOf(gone, ops), Tags(initial, log, ops)))
  {
    LastKind(initial, log, ops);
    if ops[|ops| - 1].kind == Insert {
      RoundInProgress(initial, log, ops[..|ops| - 1], gone);
      LastCuts(initial, log, ops);
      GapFits(Tags(initial, log, ops[..|ops| - 1]), |TextAt(initial, log, |log|)|, ops[..|ops| - 1], gone,
              ops[|ops| - 1].pos, Last(initial, log, ops).pos);
    }
    KeysOfLast(initial, log, ops, gone);
    InsertKeepsSorted(Map(KeyOf(gone, ops[..|ops| - 1]), Tags(initial, log, ops[..|ops| - 1])), Last(initial, log, ops),
                      2 * Rank(gone, ops[|ops| - 1].pos));
  }

  // ----- The keys do not depend on the order -----

  function Inserts(ops: seq<Operation>): seq<Operation> {
    if ops == [] then []
    else
      var earlier, last := Inserts(ops[..|ops| - 1]), ops[|ops| - 1];
      if last.kind == Insert then earlier + [last] else earlier
  }

  lemma {:induction false} InsertsAppend(a: seq<Operation>, b: seq<Operation>)
    ensures Inserts(a + b) == Inserts(a) + Inserts(b)
    decreases b
  {
    if b == [] {
      assert a + b == a;
    } else {
      InsertsAppend(a, b[..|b| - 1]);
      assert (a + b)[..|a + b| - 1] == a + b[..|b| - 1];
    }
  }

  lemma {:induction false} InsertsPermute(a: seq<Operation>, b: seq<Operation>)
    requires multiset(a) == multiset(b)
    ensures multiset(Inserts(a)) == multiset(Inserts(b))
  {
    if a == [] {
      assert |multiset(b)| == |b|;
    } else {
      var x := a[|a| - 1];
      var l, r := MatchLast(a, b);
      InsertsPermute(a[..|a| - 1], l + r);
      InsertsAppend(l, r);
      InsertsAppend(l + [x], r);
      InsertsAppend(l, [x]);
      assert [x][..0] == [] && Inserts([]) == [];
    }
  }

  /** The tags of an outcome, in an order that only the base text and `ops` decide. */
  function OldTags(len: nat, gone: set<nat>): seq<Tag> {
    if len == 0 then [] else OldTags(len - 1, gone) + (if len - 1 in gone then [] else [Old(len - 1)])
  }

  function NewTags(ops: seq<Operation>): seq<Tag> {
    if ops == [] then []
    else NewTags(ops[..|ops| - 1]) + (if ops[|ops| - 1].kind == Insert then [New(|ops| - 1)] else [])
  }

  lemma {:induction false} OldTagsExact(len: nat, gone: set<nat>)
    ensures forall tag: Tag :: tag in OldTags(len, gone) <==> tag.Old? && tag.index < len && tag.index !in gone
    ensures Distinct(OldTags(len, gone))
  {
    if len > 0 {
      OldTagsExact(len - 1, gone);
    }
  }

  lemma {:induction false} NewTagsExact(ops: seq<Operation>)
    ensures forall tag: Tag :: tag in NewTags(ops) <==> tag.New? && tag.m < |ops| && ops[tag.m].kind == Insert
    ensures Distinct(NewTags(ops))
  {
    if ops != [] {
      NewTagsExact(ops[..|ops| - 1]);
    }
  }

  lemma LastDeleteAt(initial: string, log: seq<Operation>, ops: seq<Operation>)
    requires ops != [] && Concurrent(initial, log, ops) && Last(initial, log, ops).kind == Delete
    ensures var all, base := SubmitAll(initial, log, |log|, ops[..|ops| - 1]), IdsAt(|initial|, log, |log|);
            var ids, last, op := IdsAt(|initial|, all, |all|), Last(initial, log, ops), ops[|ops| - 1];
            op.pos < |base| && last.pos < |ids| && ids[last.pos] == base[op.pos]
  {
    var most, op, n, v := ops[..|ops| - 1], ops[|ops| - 1], |initial|, |log|;
    var all := SubmitAll(initial, log, v, most);
    LastKind(initial, log, ops);
    SubmitAllValid(initial, log, most);
    IdsAtPrefix(n, log, all, v);
    TextAtPrefix(initial, log, all, v);
    IdsAtLength(initial, log, v);
    FoldKeepsRange(initial, all, op, v, |all|);
    DeleteTracks(initial, all, op, v, |all|);
  }

  /** A delete takes out a character of the base text. */
  lemma LastDeletesOld(initial: string, log: seq<Operation>, ops: seq<Operation>)
    requires ops != [] && Concurrent(initial, log, ops) && Last(initial, log, ops).kind == Delete
    ensures var tags, last := Tags(initial, log, ops[..|ops| - 1]), Last(initial, log, ops);
            last.pos < |tags| && tags[last.pos].Old?
  {
    var base, tags := IdsAt(|initial|, log, |log|), Tags(initial, log, ops[..|ops| - 1]);
    LastDeleteAt(initial, log, ops);
    TagsName(initial, log, ops[..|ops| - 1]);
    IdsAtBorn(|initial|, log, |log|, base[ops[|ops| - 1].pos]);
    NamesOld(base, |initial|, |log|, tags[Last(initial, log, ops).pos], ops[|ops| - 1].pos);
  }

  lemma NamesOld(base: seq<CharId>, n: nat, v: nat, tag: Tag, i: nat)
    requires i < |base| && Born(base[i], n, v) && IdOf(base, v)(tag) == base[i]
    ensures tag.Old?
  {
  }

  lemma {:induction false} NewLeft(initial: string, log: seq<Operation>, ops: seq<Operation>)
    requires Concurrent(initial, log, ops)
    ensures forall m: nat :: New(m) in Tags(initial, log, ops) <==> m < |ops| && ops[m].kind == Insert
  {
    if ops != [] {
      var most, last := ops[..|ops| - 1], Last(initial, log, ops);
      NewLeft(initial, log, most);
      LastKind(initial, log, ops);
      if last.kind == Delete {
        LastDeletesOld(initial, log, ops);
      }
      NewSpliced(Tags(initial, log, most), last, New(|most|));
    }
  }

  lemma NewStays(tags: seq<Tag>, last: Operation, tag: Tag, x: Tag)
    requires last.kind == Delete ==> last.pos < |tags| && tags[last.pos].Old?
    requires x.New? && x in tags
    ensures x in Splice(tags, last, [tag])
  {
    var after, p := Splice(tags, last, [tag]), Min(last.pos, |tags|);
    var j :| 0 <= j < |tags| && tags[j] == x;
    if last.kind == Insert {
      assert after[if j < p then j else j + 1] == x;
    } else if last.kind == Delete {
      assert after[if j < p then j else j - 1] == x;
    }
  }

  lemma NewSpliced(tags: seq<Tag>, last: Operation, tag: Tag)
    requires last.kind == Delete ==> last.pos < |tags| && tags[last.pos].Old?
    ensures forall x: Tag :: x.New? ==>
              (x in Splice(tags, last, [tag]) <==> x in tags || (last.kind == Insert && x == tag))
  {
    forall x | x in tags && x.New? ensures x in Splice(tags, last, [tag]) {
      NewStays(tags, last, tag, x);
    }
    if last.kind == Insert {
      assert Splice(tags, last, [tag])[Min(last.pos, |tags|)] == tag;
    }
  }

  lemma CanonicalTags(initial: string, log: seq<Operation>, ops: seq<Operation>)
    requires Concurrent(initial, log, ops)
    ensures multiset(Tags(initial, log, ops))
            == multiset(OldTags(|TextAt(initial, log, |log|)|, DeletedPositions(ops)) + NewTags(ops))
  {
    var tags, len := Tags(initial, log, ops), |TextAt(initial, log, |log|)|;
    var canon := OldTags(len, DeletedPositions(ops)) + NewTags(ops);
    OldLeft(initial, log, ops);
    NewLeft(initial, log, ops);
    TagsSound(initial, log, ops);
    OldTagsExact(len, DeletedPositions(ops));
    NewTagsExact(ops);
    DistinctAppend(OldTags(len, DeletedPositions(ops)), NewTags(ops));
    DistinctMultiset(tags);
    DistinctMultiset(canon);
    forall tag ensures tag in tags <==> tag in canon {
      assert tag in tags ==> Sound(tag, len, ops);
    }
    assert Members(tags) == Members(canon);
  }

  // ----- Separated rounds -----

  lemma NewKeys(gone: set<nat>, ops: seq<Operation>, len: nat)
    requires forall m :: 0 <= m < |ops| && ops[m].kind == Insert ==> |ops[m].ch| == 1
    ensures Map(KeyOf(gone, ops), NewTags(ops)) == Map((op: Operation) => 2 * Rank(gone, op.pos), Inserts(ops))
  {
    if ops != [] {
      var most, last := ops[..|ops| - 1], ops[|ops| - 1];
      NewKeys(gone, most, len);
      NewTagsExact(most);
      assert ops == most + [last];
      KeysOfMore(gone, most, last, NewTags(most), len);
      MapAppend(KeyOf(gone, ops), NewTags(most), if last.kind == Insert then [New(|most|)] else []);
    }
  }

  lemma OldKeys(gone: set<nat>, one: seq<Operation>, two: seq<Operation>, tags: seq<Tag>)
    requires forall tag: Tag :: tag in tags ==> tag.Old?
    ensures Map(KeyOf(gone, one), tags) == Map(KeyOf(gone, two), tags)
  {
    forall j | 0 <= j < |tags| ensures KeyOf(gone, one)(tags[j]) == KeyOf(gone, two)(tags[j]) {
      assert tags[j] in tags;
    }
  }

  /** The keys of an outcome, in an order that does not depend on the order of the round. */
  lemma CanonicalKeys(initial: string, log: seq<Operation>, ops: seq<Operation>, gone: set<nat>)
    requires Concurrent(initial, log, ops) && gone == DeletedPositions(ops)
    ensures multiset(Map(KeyOf(gone, ops), Tags(initial, log, ops)))
            == multiset(Map(KeyOf(gone, ops), OldTags(|TextAt(initial, log, |log|)|, gone)))
             + multiset(Map((op: Operation) => 2 * Rank(gone, op.pos), Inserts(ops)))
  {
    var len := |TextAt(initial, log, |log|)|;
    CanonicalTags(initial, log, ops);
    MapPermutes(KeyOf(gone, ops), Tags(initial, log, ops), OldTags(len, gone) + NewTags(ops));
    MapAppend(KeyOf(gone, ops), OldTags(len, gone), NewTags(ops));
    NewKeys(gone, ops, len);
  }

  lemma ConcurrentPermutes(initial: string, log: seq<Operation>, one: seq<Operation>, two: seq<Operation>)
    requires Concurrent(initial, log, one) && multiset(one) == multiset(two)
    ensures Concurrent(initial, log, two)
  {
    forall i | 0 <= i < |two| ensures Fits(two[i], |TextAt(initial, log, |log|)|) {
      assert two[i] in multiset(two);
      assert two[i] in one;
    }
  }

  lemma SameKeys(initial: string, log: seq<Operation>, one: seq<Operation>, two: seq<Operation>, gone: set<nat>)
    requires Concurrent(initial, log, one) && Concurrent(initial, log, two) && multiset(one) == multiset(two)
    requires gone == DeletedPositions(one) == DeletedPositions(two)
    ensures Map(KeyOf(gone, one), Tags(initial, log, one)) == Map(KeyOf(gone, two), Tags(initial, log, two))
  {
    var len := |TextAt(initial, log, |log|)|;
    CanonicalKeys(initial, log, one, gone);
    CanonicalKeys(initial, log, two, gone);
    OldTagsExact(len, gone);
    OldKeys(gone, one, two, OldTags(len, gone));
    InsertsPermute(one, two);
    MapPermutes((op: Operation) => 2 * Rank(gone, op.pos), Inserts(one), Inserts(two));
    KeysSorted(initial, log, one, gone);
    KeysSorted(initial, log, two, gone);
    SortedUnique(Map(KeyOf(gone, one), Tags(initial, log, one)), Map(KeyOf(gone, two), Tags(initial, log, two)));
  }

  /** In a separated round, inserts of one rank type one character. */
  lemma RankTypes(ops: seq<Operation>, a: Operation, b: Operation)
    requires Separated(ops) && a in ops && b in ops && a.kind == b.kind == Insert
    requires Rank(DeletedPositions(ops), a.pos) == Rank(DeletedPositions(ops), b.pos)
    ensures a.ch == b.ch
  {
    var i :| 0 <= i < |ops| && ops[i] == a;
    var j :| 0 <= j < |ops| && ops[j] == b;
    if a.pos <= b.pos {
      RankFlat(DeletedPositions(ops), a.pos, b.pos);
      assert AllDeleted(ops, ops[i].pos, ops[j].pos);
    } else {
      RankFlat(DeletedPositions(ops), b.pos, a.pos);
      assert AllDeleted(ops, ops[j].pos, ops[i].pos);
    }
  }

  lemma RankStrict(gone: set<nat>, i: nat, j: nat)
    requires i < j && i !in gone
    ensures Rank(gone, i) < Rank(gone, j)
  {
    RankMonotonic(gone, i + 1, j);
  }

  lemma StayersByRank(gone: set<nat>, i: nat, j: nat)
    requires i !in gone && j !in gone && Rank(gone, i) == Rank(gone, j)
    ensures i == j
  {
    if i < j {
      RankStrict(gone, i, j);
    }
    if j < i {
      RankStrict(gone, j, i);
    }
  }

  lemma SameCharacter(base: string, one: seq<Operation>, two: seq<Operation>, gone: set<nat>, s: Tag, t: Tag)
    requires Separated(one) && multiset(one) == multiset(two) && gone == DeletedPositions(one)
    requires Sound(s, |base|, one) && Sound(t, |base|, two) && KeyOf(gone, one)(s) == KeyOf(gone, two)(t)
    requires (s.Old? ==> s.index !in gone) && (t.Old? ==> t.index !in gone)
    ensures CharOfTag(base, one)(s) == CharOfTag(base, two)(t)
  {
    if s.Old? && t.Old? {
      StayersByRank(gone, s.index, t.index);
    } else if s.New? && t.New? {
      assert two[t.m] in multiset(two);
      assert two[t.m] in one && one[s.m] in one;
      RankTypes(one, one[s.m], two[t.m]);
    }
  }

  /** Separated rounds do not depend on order. */
  lemma SeparatedSuffices(initial: string, log: seq<Operation>, one: seq<Operation>, two: seq<Operation>)
    requires Concurrent(initial, log, one) && Separated(one) && multiset(one) == multiset(two)
    ensures Outcome(initial, log, one) == Outcome(initial, log, two)
  {
    var base, gone := TextAt(initial, log, |log|), DeletedPositions(one);
    ConcurrentPermutes(initial, log, one, two);
    PermutationDeletes(one, two);
    SameKeys(initial, log, one, two, gone);
    TagsSpell(initial, log, one);
    TagsSpell(initial, log, two);
    OldLeft(initial, log, one);
    OldLeft(initial, log, two);
    TagsSound(initial, log, one);
    TagsSound(initial, log, two);
    var s, t := Tags(initial, log, one), Tags(initial, log, two);
    assert |Map(KeyOf(gone, one), s)| == |s| && |Map(KeyOf(gone, two), t)| == |t|;
    forall j | 0 <= j < |s| ensures CharOfTag(base, one)(s[j]) == CharOfTag(base, two)(t[j]) {
      assert Map(KeyOf(gone, one), s)[j] == Map(KeyOf(gone, two), t)[j];
      SameCharacter(base, one, two, gone, s[j], t[j]);
    }
  }
}
