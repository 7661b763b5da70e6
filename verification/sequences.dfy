/** Sequences without repetition, and how they count sets. */
module Sequences {

  predicate Distinct<T(==)>(xs: seq<T>) {
    forall i, j :: 0 <= i < j < |xs| ==> xs[i] != xs[j]
  }

  lemma {:induction false} DistinctSize<T>(xs: seq<T>)
    requires Distinct(xs)
    ensures |set x | x in xs| == |xs|
  {
    if xs != [] {
      var n := |xs| - 1;
      DistinctSize(xs[..n]);
      assert (set x | x in xs) == (set x | x in xs[..n]) + {xs[n]};
    }
  }

  lemma {:induction false} SubsetSize<T>(a: set<T>, b: set<T>)
    requires a <= b
    ensures |a| <= |b|
  {
    if a != {} {
      var x :| x in a;
      SubsetSize(a - {x}, b - {x});
    }
  }

  lemma SameMembers<T>(xs: seq<T>, ys: seq<T>)
    requires forall x <- xs :: x in ys
    requires forall y <- ys :: y in xs
    ensures (set x | x in xs) == (set x | x in ys)
  {
  }

  /** xs holds exactly the elements of s. */
  ghost predicate Holds<T(!new)>(xs: seq<T>, s: set<T>) {
    forall x :: x in xs <==> x in s
  }

  /** A sequence without repetition that holds a set is as long as the set is large. */
  lemma HeldSize<T(!new)>(xs: seq<T>, s: set<T>)
    requires Distinct(xs) && Holds(xs, s)
    ensures |xs| == |s|
  {
    DistinctSize(xs);
    assert (set x | x in xs) == s;
  }

  lemma SetMinus<T>(a: set<T>, b: set<T>) returns (x: T)
    requires |a| > |b|
    ensures x in a && x !in b
  {
    if a <= b {
      SubsetSize(a, b);
    }
    x :| x in a && x !in b;
  }

  /** A sequence without repetition that is longer than a set is large leaves the set. */
  lemma LeavesSet<T>(xs: seq<T>, s: set<T>) returns (x: T)
    requires Distinct(xs) && |xs| > |s|
    ensures x in xs && x !in s
  {
    DistinctSize(xs);
    x := SetMinus((set e | e in xs), s);
  }

  /** A set that is larger than a sequence is long is not exhausted by it. */
  lemma NotExhausted<T>(s: set<T>, xs: seq<T>) returns (x: T)
    requires |s| > |xs|
    ensures x in s && x !in xs
  {
    SeqSize(xs);
    x := SetMinus(s, (set e | e in xs));
  }

  lemma {:induction false} SeqSize<T>(xs: seq<T>)
    ensures |set x | x in xs| <= |xs|
  {
    if xs != [] {
      var n := |xs| - 1;
      SeqSize(xs[..n]);
      assert (set x | x in xs) == (set x | x in xs[..n]) + {xs[n]};
    }
  }
}
