/** Sequences up to reordering. */
module Permutations {
  import opened Intention
  import opened Survivors

  function Map<A, B>(f: A -> B, s: seq<A>): seq<B> {
    seq(|s|, i requires 0 <= i < |s| => f(s[i]))
  }

  ghost predicate Sorted(keys: seq<nat>) {
    forall i, j :: 0 <= i < j < |keys| ==> keys[i] <= keys[j]
  }

  lemma FindOne<A>(s: seq<A>, x: A) returns (l: seq<A>, r: seq<A>)
    requires x in s
    ensures s == l + [x] + r && multiset(s) == multiset(l + r) + multiset{x}
  {
    var k :| 0 <= k < |s| && s[k] == x;
    l, r := s[..k], s[k + 1..];
    assert s == l + [x] + r;
  }

  lemma DropLast<A>(s: seq<A>)
    requires s != []
    ensures multiset(s) == multiset(s[..|s| - 1]) + multiset{s[|s| - 1]}
  {
    assert s == s[..|s| - 1] + [s[|s| - 1]];
  }

  /** The last of one order, found in another. */
  lemma MatchLast<A>(a: seq<A>, b: seq<A>) returns (l: seq<A>, r: seq<A>)
    requires a != [] && multiset(a) == multiset(b)
    ensures b == l + [a[|a| - 1]] + r && multiset(a[..|a| - 1]) == multiset(l + r)
  {
    var x := a[|a| - 1];
    DropLast(a);
    assert x in multiset(b);
    l, r := FindOne(b, x);
    assert multiset(a) - multiset{x} == multiset(a[..|a| - 1]) && multiset(b) - multiset{x} == multiset(l + r);
  }

  lemma {:induction false} MapPermutes<A, B>(f: A -> B, a: seq<A>, b: seq<A>)
    requires multiset(a) == multiset(b)
    ensures multiset(Map(f, a)) == multiset(Map(f, b))
  {
    if a == [] {
      assert |multiset(b)| == |b|;
    } else {
      var l, r := MatchLast(a, b);
      MapPermutes(f, a[..|a| - 1], l + r);
      DropLast(Map(f, a));
      assert Map(f, a)[..|a| - 1] == Map(f, a[..|a| - 1]);
      assert Map(f, b) == Map(f, l) + [f(a[|a| - 1])] + Map(f, r) && Map(f, l + r) == Map(f, l) + Map(f, r);
    }
  }

  lemma {:induction false} DistinctMultiset<A>(s: seq<A>)
    requires Distinct(s)
    ensures multiset(s) == multiset(Members(s))
  {
    if s != [] {
      var most, last := s[..|s| - 1], s[|s| - 1];
      DistinctMultiset(most);
      DropLast(s);
      assert last !in most;
      assert Members(s) == Members(most) + {last};
    }
  }

  lemma DistinctAppend<A>(a: seq<A>, b: seq<A>)
    requires Distinct(a) && Distinct(b) && forall x :: x in a ==> x !in b
    ensures Distinct(a + b)
  {
    forall i, j | 0 <= i < j < |a + b| ensures (a + b)[i] != (a + b)[j] {
      if i < |a| <= j {
        assert a[i] in a && b[j - |a|] in b;
      }
    }
  }

  lemma MapAppend<A, B>(f: A -> B, a: seq<A>, b: seq<A>)
    ensures Map(f, a + b) == Map(f, a) + Map(f, b)
  {
  }

  lemma LastIsLargest(keys: seq<nat>, x: nat)
    requires Sorted(keys) && x in multiset(keys)
    ensures keys != [] && x <= keys[|keys| - 1]
  {
    assert x in keys;
    var k :| 0 <= k < |keys| && keys[k] == x;
  }

  lemma SameLast(a: seq<nat>, b: seq<nat>)
    requires Sorted(a) && Sorted(b) && multiset(a) == multiset(b) && a != [] && b != []
    ensures a[|a| - 1] == b[|b| - 1] && multiset(a[..|a| - 1]) == multiset(b[..|b| - 1])
  {
    var x, y := a[|a| - 1], b[|b| - 1];
    DropLast(a);
    DropLast(b);
    LastIsLargest(b, x);
    LastIsLargest(a, y);
    assert multiset(a[..|a| - 1]) == multiset(a) - multiset{x} && multiset(b[..|b| - 1]) == multiset(b) - multiset{y};
  }

  lemma SameLength<A>(a: seq<A>, b: seq<A>)
    requires multiset(a) == multiset(b)
    ensures |a| == |b|
  {
    assert |multiset(a)| == |a| && |multiset(b)| == |b|;
  }

  /** There is only one way to sort. */
  lemma {:induction false} SortedUnique(a: seq<nat>, b: seq<nat>)
    requires Sorted(a) && Sorted(b) && multiset(a) == multiset(b)
    ensures a == b
  {
    SameLength(a, b);
    if a != [] {
      SameLast(a, b);
      SortedUnique(a[..|a| - 1], b[..|b| - 1]);
      assert a == a[..|a| - 1] + [a[|a| - 1]] && b == b[..|b| - 1] + [b[|b| - 1]];
    }
  }
}
