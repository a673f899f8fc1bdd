/** Sequence facts shared by the chunking, merging and aggregation models. */
module Sequences {

  ghost predicate NoDuplicates<T>(xs: seq<T>) {
    forall i, j :: 0 <= i < j < |xs| ==> xs[i] != xs[j]
  }

  lemma NoDuplicatesSnoc<T>(xs: seq<T>, x: T)
    ensures NoDuplicates(xs + [x]) <==> NoDuplicates(xs) && x !in xs
  {
    var ys := xs + [x];
    assert forall i :: 0 <= i < |xs| ==> ys[i] == xs[i];
    if x in xs {
      var i :| 0 <= i < |xs| && xs[i] == x;
      assert ys[i] == ys[|xs|];
    }
  }

  predicate StrictlyIncreasing(xs: seq<nat>) {
    forall i, j :: 0 <= i < j < |xs| ==> xs[i] < xs[j]
  }

  function Flatten<T>(xss: seq<seq<T>>): seq<T> {
    if xss == [] then [] else xss[0] + Flatten(xss[1..])
  }

  lemma {:induction false} FlattenAppend<T>(a: seq<seq<T>>, b: seq<seq<T>>)
    ensures Flatten(a + b) == Flatten(a) + Flatten(b)
  {
    if a == [] {
      assert a + b == b;
    } else {
      FlattenAppend(a[1..], b);
      assert (a + b)[1..] == a[1..] + b && (a + b)[0] == a[0];
      assert Flatten(a + b) == a[0] + (Flatten(a[1..]) + Flatten(b));
    }
  }

  lemma FlattenSnoc<T>(a: seq<seq<T>>, x: seq<T>)
    ensures Flatten(a + [x]) == Flatten(a) + x
  {
    FlattenAppend(a, [x]);
    assert Flatten([x]) == x + Flatten([]);
  }

  lemma PrefixStep<T>(xs: seq<T>, m: nat)
    requires 0 < m <= |xs|
    ensures xs[..m] == xs[..m - 1] + [xs[m - 1]]
  {
  }

  lemma Regroup<T>(a: seq<T>, b: seq<T>, c: seq<T>, d: seq<T>)
    ensures a + b + c == a + (b + c)
    ensures b + c + d == b + (c + d)
  {
  }

  lemma Stretches<T>(xs: seq<T>, lo: nat, hi: nat)
    requires lo <= hi <= |xs|
    ensures xs[..lo] + xs[lo..hi] == xs[..hi] && xs[..hi] + xs[hi..] == xs
  {
  }

  /** The elements of `xs` in order of first appearance: `unique(keep='first',
      maintain_order=True)`, the uniques of `factorize`, the keys of a dict. */
  function Distinct<T(==,!new)>(xs: seq<T>): (ys: seq<T>)
    ensures forall x :: x in ys <==> x in xs
    ensures NoDuplicates(ys)
    ensures |ys| <= |xs|
  {
    if xs == [] then []
    else
      var rest := Distinct(xs[..|xs| - 1]);
      var x := xs[|xs| - 1];
      assert xs == xs[..|xs| - 1] + [x];
      if x in rest then rest else rest + [x]
  }

  lemma DistinctSnoc<T(!new)>(xs: seq<T>, x: T)
    ensures Distinct(xs + [x]) == if x in xs then Distinct(xs) else Distinct(xs) + [x]
  {
  }

  lemma {:induction false} DistinctWhole<T(!new)>(xs: seq<T>)
    ensures |Distinct(xs)| == |xs| <==> Distinct(xs) == xs
    ensures NoDuplicates(xs) <==> Distinct(xs) == xs
  {
    if xs != [] {
      var init, last := xs[..|xs| - 1], xs[|xs| - 1];
      assert xs == init + [last];
      DistinctWhole(init);
      DistinctSnoc(init, last);
      NoDuplicatesSnoc(init, last);
    }
  }

  /** Lists without duplicates that have the same elements are equally long. */
  lemma {:induction false} SameElementsSameLength<T(!new)>(a: seq<T>, b: seq<T>)
    requires NoDuplicates(a) && NoDuplicates(b) && forall x :: x in a <==> x in b
    ensures |a| == |b|
  {
    LengthIsCardinality(a);
    LengthIsCardinality(b);
    assert (set x | x in a) == (set x | x in b);
  }

  lemma {:induction false} LengthIsCardinality<T>(a: seq<T>)
    requires NoDuplicates(a)
    ensures |set x | x in a| == |a|
  {
    if a != [] {
      var init, last := a[..|a| - 1], a[|a| - 1];
      assert a == init + [last];
      LengthIsCardinality(init);
      assert (set x | x in a) == (set x | x in init) + {last};
    }
  }

  /** Position of `x` in `xs`. */
  function IndexOf<T(==)>(xs: seq<T>, x: T): (i: nat)
    requires x in xs
    ensures i < |xs| && xs[i] == x
    ensures forall j :: 0 <= j < i ==> xs[j] != x
  {
    if xs[0] == x then 0 else 1 + IndexOf(xs[1..], x)
  }

  lemma IndexOfIs<T>(xs: seq<T>, i: nat)
    requires NoDuplicates(xs) && i < |xs|
    ensures IndexOf(xs, xs[i]) == i
  {
  }

  /** Two strictly increasing lists with the same elements are the same list. */
  lemma {:induction false} IncreasingUnique(a: seq<nat>, b: seq<nat>)
    requires StrictlyIncreasing(a) && StrictlyIncreasing(b)
    requires forall x :: x in a <==> x in b
    ensures a == b
  {
    if a == [] {
      assert forall i :: 0 <= i < |b| ==> b[i] in a;
    } else {
      assert a[|a| - 1] in b && b != [];
      var a', b' := a[..|a| - 1], b[..|b| - 1];
      var x, y := a[|a| - 1], b[|b| - 1];
      assert y in a;
      assert x == y;
      forall z
        ensures z in a' <==> z in b'
      {
        if z in a' { assert z in b && z < x; }
        if z in b' { assert z in a && z < y; }
      }
      IncreasingUnique(a', b');
      assert a == a' + [x] && b == b' + [y];
    }
  }

  function Reversed<T>(xs: seq<T>): (ys: seq<T>)
    ensures |ys| == |xs|
    ensures forall i :: 0 <= i < |xs| ==> ys[i] == xs[|xs| - 1 - i]
  {
    if xs == [] then [] else Reversed(xs[1..]) + [xs[0]]
  }

  lemma ReversedAppend<T>(a: seq<T>, b: seq<T>)
    ensures Reversed(a + b) == Reversed(b) + Reversed(a)
  {
  }
}
