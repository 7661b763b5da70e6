/** Cyclic rotation of a set of symbols behind a cursor, and the measure by which a cursor
    that keeps moving must reach every symbol.

    A symbol is represented by the position of its name in code-point order: the program only
    ever compares names for order and equality. */
module Rotation {
  import opened Sequences
  import opened Wrappers

  type Symbol = int

  // ---------------------------------------------------------------- sorted sets

  lemma Member<T>(s: set<T>) returns (x: T)
    requires s != {}
    ensures x in s
  {
    x :| x in s;
  }

  predicate IsLeast(m: Symbol, s: set<Symbol>) {
    m in s && forall y <- s :: m <= y
  }

  lemma {:induction false} LeastExists(s: set<Symbol>)
    requires s != {}
    ensures exists m :: IsLeast(m, s)
  {
    var x := Member(s);
    if s == {x} {
      assert IsLeast(x, s);
    } else {
      var rest := s - {x};
      assert rest != {};
      LeastExists(rest);
      var m :| IsLeast(m, rest);
      var least := if x < m then x else m;
      forall y | y in s ensures least <= y {
        if y != x { assert y in rest; }
      }
      assert IsLeast(least, s);
    }
  }

  function Least(s: set<Symbol>): (m: Symbol)
    requires s != {}
    ensures IsLeast(m, s)
  {
    LeastExists(s);
    var m :| IsLeast(m, s);
    m
  }

  predicate Ascending(xs: seq<Symbol>) {
    forall i, j :: 0 <= i < j < |xs| ==> xs[i] < xs[j]
  }

  function Sorted(s: set<Symbol>): (r: seq<Symbol>)
    ensures Ascending(r) && Holds(r, s)
  {
    if s == {} then []
    else
      var m := Least(s);
      var rest := Sorted(s - {m});
      PushLeast(s, m, rest);
      [m] + rest
  }

  lemma PushLeast(s: set<Symbol>, m: Symbol, rest: seq<Symbol>)
    requires IsLeast(m, s) && Ascending(rest) && Holds(rest, s - {m})
    ensures Ascending([m] + rest) && Holds([m] + rest, s)
  {
    var r := [m] + rest;
    forall i, j | 0 <= i < j < |r| ensures r[i] < r[j] {
      assert r[j] == rest[j - 1] && rest[j - 1] in s - {m};
      if i > 0 { assert r[i] == rest[i - 1]; }
    }
    forall x ensures x in r <==> x in s {
      assert x in s <==> x == m || x in rest;
    }
  }

  /** Number of leading items that are at most the cursor: the insertion point to its right. */
  function BisectRight(items: seq<Symbol>, cursor: Symbol): (n: nat)
    requires Ascending(items)
    ensures n <= |items|
    ensures forall i :: 0 <= i < |items| ==> (items[i] <= cursor <==> i < n)
  {
    if items == [] then 0
    else if items[|items| - 1] <= cursor then |items|
    else BisectRight(items[..|items| - 1], cursor)
  }

  // ---------------------------------------------------------------- rotation

  /** u comes before v when symbols are visited upwards from just behind the cursor, around the circle. */
  predicate Before(cursor: Option<Symbol>, u: Symbol, v: Symbol) {
    if cursor.None? then u < v
    else if u > cursor.value then v <= cursor.value || u < v
    else v <= cursor.value && u < v
  }

  predicate Visits(xs: seq<Symbol>, cursor: Option<Symbol>) {
    forall i, j :: 0 <= i < j < |xs| ==> Before(cursor, xs[i], xs[j])
  }

  lemma AscendingDistinct(xs: seq<Symbol>)
    requires Ascending(xs)
    ensures Distinct(xs)
  {
    forall i, j | 0 <= i < j < |xs| ensures xs[i] != xs[j] {
      assert xs[i] < xs[j];
    }
  }

  /** Every symbol once, in visiting order from the cursor. */
  function Rotate(s: set<Symbol>, cursor: Option<Symbol>): (r: seq<Symbol>)
    ensures Holds(r, s) && Visits(r, cursor) && Distinct(r)
  {
    var items := Sorted(s);
    if items == [] then []
    else
      var start := Start(items, cursor);
      RotateHolds(items, start, s);
      RotateVisits(items, start, cursor);
      items[start..] + items[..start]
  }

  /** Position of the first item behind the cursor, back at the front when there is none. */
  function Start(items: seq<Symbol>, cursor: Option<Symbol>): (n: nat)
    requires Ascending(items) && items != []
    ensures n < |items| && (cursor.None? ==> n == 0)
    ensures cursor.Some? ==>
      n == BisectRight(items, cursor.value) || (n == 0 && BisectRight(items, cursor.value) == |items|)
  {
    if cursor.None? then 0
    else
      var b := BisectRight(items, cursor.value);
      if b == |items| then 0 else b
  }

  lemma RotateHolds(items: seq<Symbol>, start: nat, s: set<Symbol>)
    requires Holds(items, s) && start <= |items|
    ensures Holds(items[start..] + items[..start], s)
  {
    var r := items[start..] + items[..start];
    assert items == items[..start] + items[start..];
    forall x ensures x in r <==> x in s {
      assert x in r <==> x in items;
    }
  }

  lemma RotateVisits(items: seq<Symbol>, start: nat, cursor: Option<Symbol>)
    requires Ascending(items) && start < |items|
    requires cursor.None? ==> start == 0
    requires cursor.Some? ==>
      start == BisectRight(items, cursor.value) || (start == 0 && BisectRight(items, cursor.value) == |items|)
    ensures Visits(items[start..] + items[..start], cursor) && Distinct(items[start..] + items[..start])
  {
    hide BisectRight;
    var r := items[start..] + items[..start];
    forall i, j | 0 <= i < j < |r| ensures Before(cursor, r[i], r[j]) && r[i] != r[j] {
      var k, l := if i < |items| - start then i + start else i + start - |items|,
                  if j < |items| - start then j + start else j + start - |items|;
      assert r[i] == items[k] && r[j] == items[l] && k != l;
    }
  }

  // ---------------------------------------------------------------- the measure

  /** The symbols of u that are visited from the cursor up to and including s. */
  function Ahead(u: set<Symbol>, cursor: Option<Symbol>, s: Symbol): set<Symbol> {
    set x | x in u && (x == s || Before(cursor, x, s))
  }

  /** When the cursor moves to the last of several symbols visited before s, all of them leave
      the way to s and none joins it. */
  lemma CursorProgress(u: set<Symbol>, cursor: Option<Symbol>, passed: seq<Symbol>, s: Symbol)
    requires passed != [] && Visits(passed, cursor) && Distinct(passed)
    requires forall x <- passed :: x in u && x != s && Before(cursor, x, s)
    ensures |Ahead(u, Some(passed[|passed| - 1]), s)| + |passed| <= |Ahead(u, cursor, s)|
  {
    var last := passed[|passed| - 1];
    assert last in passed;
    var left, gone, all := Ahead(u, Some(last), s), (set x | x in passed), Ahead(u, cursor, s);
    forall x | x in passed ensures x !in left && x in all {
      var i :| 0 <= i < |passed| && passed[i] == x;
      assert i == |passed| - 1 || Before(cursor, x, last);
    }
    assert left !! gone && left + gone <= all;
    DistinctSize(passed);
    SubsetSize(left + gone, all);
  }

}
