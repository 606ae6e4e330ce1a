/** Sequences that hold the same elements equally often, whatever their order. */
module Permutations {

  ghost predicate Permutes<T>(a: seq<T>, b: seq<T>) {
    multiset(a) == multiset(b)
  }

  lemma SameMembers<T>(a: seq<T>, b: seq<T>)
    requires Permutes(a, b)
    ensures |a| == |b|
    ensures forall x :: x in a <==> x in b
  {
    assert |a| == |multiset(a)| && |b| == |multiset(b)|;
    forall x ensures x in a <==> x in b {
      assert x in a <==> x in multiset(a);
      assert x in b <==> x in multiset(b);
    }
  }

  function Without<T>(s: seq<T>, i: nat): (r: seq<T>)
    requires i < |s|
    ensures |r| == |s| - 1
  {
    s[..i] + s[i + 1..]
  }

  lemma WithoutOne<T>(s: seq<T>, i: nat)
    requires i < |s|
    ensures multiset(s) == multiset(Without(s, i)) + multiset{s[i]}
  {
    assert s == s[..i] + ([s[i]] + s[i + 1..]);
  }

  lemma CancelOne<T>(a: multiset<T>, b: multiset<T>, x: T)
    requires a + multiset{x} == b + multiset{x}
    ensures a == b
  {
    forall y ensures a[y] == b[y] {
      assert (a + multiset{x})[y] == (b + multiset{x})[y];
    }
  }

  lemma DropEqual<T>(a: seq<T>, b: seq<T>, i: nat, j: nat)
    requires Permutes(a, b) && i < |a| && j < |b| && a[i] == b[j]
    ensures Permutes(Without(a, i), Without(b, j))
  {
    WithoutOne(a, i);
    WithoutOne(b, j);
    CancelOne(multiset(Without(a, i)), multiset(Without(b, j)), a[i]);
  }

  /** The head of one sequence sits somewhere in the other, and the rests still agree. */
  lemma TakeHead<T>(a: seq<T>, b: seq<T>) returns (i: nat)
    requires Permutes(a, b) && a != []
    ensures i < |b| && b[i] == a[0] && Permutes(a[1..], Without(b, i))
  {
    SameMembers(a, b);
    assert a[0] in b;
    i :| 0 <= i < |b| && b[i] == a[0];
    DropEqual(a, b, 0, i);
    assert Without(a, 0) == a[1..];
  }

  lemma TailsAgree<T>(a: seq<T>, b: seq<T>)
    requires Permutes(a, b) && a != [] && b != [] && a[0] == b[0]
    ensures Permutes(a[1..], b[1..])
  {
    DropEqual(a, b, 0, 0);
    WithoutFirst(a);
    WithoutFirst(b);
  }

  lemma WithoutFirst<T>(s: seq<T>)
    requires s != []
    ensures Without(s, 0) == s[1..]
  {
  }

  lemma MoveAcross<T>(left: seq<T>, right: seq<T>, i: nat, all: seq<T>)
    requires Permutes(left + right, all) && i < |right|
    ensures Permutes(left + [right[i]] + Without(right, i), all)
  {
    WithoutOne(right, i);
    assert multiset([right[i]]) == multiset{right[i]};
  }

  lemma MovedToFront<T>(x: seq<T>, rest: seq<T>, before: seq<T>, after: seq<T>)
    requires Permutes(rest, before + after)
    ensures Permutes(x + rest, before + (x + after))
    ensures Permutes(x + rest, (x + before) + after)
  {
  }

  lemma Appended<T>(a: seq<T>, b: seq<T>, c: seq<T>)
    requires Permutes(a, b)
    ensures Permutes(a + c, b + c)
  {
  }
}
