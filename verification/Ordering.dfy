/** ORDER BY: a stable insertion sort, and SQLite's order on text. */
module Ordering {

  /** `x` goes after everything that may stand before it. */
  function Insert<T>(xs: seq<T>, x: T, le: (T, T) -> bool): seq<T> {
    if xs == [] || le(xs[|xs| - 1], x) then xs + [x]
    else Insert(xs[..|xs| - 1], x, le) + [xs[|xs| - 1]]
  }

  function SortBy<T>(xs: seq<T>, le: (T, T) -> bool): seq<T> {
    if xs == [] then [] else Insert(SortBy(xs[..|xs| - 1], le), xs[|xs| - 1], le)
  }

  ghost predicate Ascending<T>(xs: seq<T>, le: (T, T) -> bool) {
    forall i, j | 0 <= i < j < |xs| :: le(xs[i], xs[j])
  }

  ghost predicate TotalOrder<T(!new)>(le: (T, T) -> bool) {
    && (forall a, b :: le(a, b) || le(b, a))
    && (forall a, b, c :: le(a, b) && le(b, c) ==> le(a, c))
  }

  lemma {:induction false} InsertElements<T>(xs: seq<T>, x: T, le: (T, T) -> bool)
    ensures multiset(Insert(xs, x, le)) == multiset(xs) + multiset{x}
    decreases |xs|
  {
    if xs != [] && !le(xs[|xs| - 1], x) {
      InsertElements(xs[..|xs| - 1], x, le);
      assert xs == xs[..|xs| - 1] + [xs[|xs| - 1]];
    }
  }

  lemma {:induction false} SortElements<T>(xs: seq<T>, le: (T, T) -> bool)
    ensures multiset(SortBy(xs, le)) == multiset(xs)
    decreases |xs|
  {
    if xs != [] {
      SortElements(xs[..|xs| - 1], le);
      InsertElements(SortBy(xs[..|xs| - 1], le), xs[|xs| - 1], le);
      assert xs == xs[..|xs| - 1] + [xs[|xs| - 1]];
    }
  }

  lemma {:induction false} InsertSorts<T(!new)>(xs: seq<T>, x: T, le: (T, T) -> bool)
    requires TotalOrder(le) && Ascending(xs, le)
    ensures Ascending(Insert(xs, x, le), le)
    decreases |xs|
  {
    if xs == [] {
    } else if le(xs[|xs| - 1], x) {
      forall i | 0 <= i < |xs|
        ensures le(xs[i], x)
      {
        assert i < |xs| - 1 ==> le(xs[i], xs[|xs| - 1]);
      }
    } else {
      var init, last := xs[..|xs| - 1], xs[|xs| - 1];
      InsertSorts(init, x, le);
      InsertElements(init, x, le);
      var r := Insert(init, x, le);
      forall i | 0 <= i < |r|
        ensures le(r[i], last)
      {
        assert r[i] in multiset(r);
        if r[i] != x {
          assert r[i] in init;
        }
      }
    }
  }

  /** Sorting sorts. */
  lemma {:induction false} SortSorts<T(!new)>(xs: seq<T>, le: (T, T) -> bool)
    requires TotalOrder(le)
    ensures Ascending(SortBy(xs, le), le)
    decreases |xs|
  {
    if xs != [] {
      SortSorts(xs[..|xs| - 1], le);
      InsertSorts(SortBy(xs[..|xs| - 1], le), xs[|xs| - 1], le);
    }
  }

  /** Elements that come in order, after everything already there, stay where they are put. */
  lemma {:induction false} SortAppend<T>(xs: seq<T>, ys: seq<T>, le: (T, T) -> bool)
    requires Ascending(ys, le)
    requires forall x, y | x in xs && y in ys :: le(x, y)
    ensures SortBy(xs + ys, le) == SortBy(xs, le) + ys
    decreases |ys|
  {
    if ys == [] {
      assert xs + ys == xs;
    } else {
      var n := |ys| - 1;
      assert (xs + ys)[..|xs + ys| - 1] == xs + ys[..n];
      SortAppend(xs, ys[..n], le);
      var sorted := SortBy(xs, le) + ys[..n];
      LastStays(xs, ys, le);
      hide Ascending;
      assert Insert(sorted, ys[n], le) == sorted + [ys[n]];
      assert sorted + [ys[n]] == SortBy(xs, le) + ys;
    }
  }

  /** What the last element is inserted after stands before it. */
  lemma LastStays<T>(xs: seq<T>, ys: seq<T>, le: (T, T) -> bool)
    requires ys != [] && Ascending(ys, le)
    requires forall x, y | x in xs && y in ys :: le(x, y)
    ensures
      var sorted := SortBy(xs, le) + ys[..|ys| - 1];
      sorted == [] || le(sorted[|sorted| - 1], ys[|ys| - 1])
  {
    var n := |ys| - 1;
    var sorted := SortBy(xs, le) + ys[..n];
    SortElements(xs, le);
    hide SortBy;
    if sorted != [] && n == 0 {
      var last := sorted[|sorted| - 1];
      assert last in multiset(SortBy(xs, le));
      assert last in xs;
    } else if n > 0 {
      assert sorted[|sorted| - 1] == ys[n - 1];
    }
  }

  lemma SortOfAscending<T>(xs: seq<T>, le: (T, T) -> bool)
    requires Ascending(xs, le)
    ensures SortBy(xs, le) == xs
  {
    SortAppend([], xs, le);
    assert [] + xs == xs;
  }

  /** SortBy looks at the order of the elements it sorts, and at nothing else. */
  lemma {:induction false} SortCongruence<T>(xs: seq<T>, le1: (T, T) -> bool, le2: (T, T) -> bool)
    requires forall a, b | a in xs && b in xs :: le1(a, b) == le2(a, b)
    ensures SortBy(xs, le1) == SortBy(xs, le2)
    decreases |xs|
  {
    if xs != [] {
      var init, last := xs[..|xs| - 1], xs[|xs| - 1];
      SortCongruence(init, le1, le2);
      SortElements(init, le1);
      forall a | a in SortBy(init, le1)
        ensures a in xs
      {
        assert a in multiset(SortBy(init, le1));
      }
      InsertCongruence(SortBy(init, le1), last, le1, le2);
    }
  }

  lemma {:induction false} InsertCongruence<T>(xs: seq<T>, x: T, le1: (T, T) -> bool, le2: (T, T) -> bool)
    requires forall a | a in xs :: le1(a, x) == le2(a, x)
    ensures Insert(xs, x, le1) == Insert(xs, x, le2)
    decreases |xs|
  {
    if xs != [] && !le1(xs[|xs| - 1], x) {
      InsertCongruence(xs[..|xs| - 1], x, le1, le2);
    }
  }

  /** SQLite's BINARY collation. */
  predicate TextLe(a: string, b: string) {
    a == "" || (b != "" && (a[0] < b[0] || (a[0] == b[0] && TextLe(a[1..], b[1..]))))
  }

  lemma {:induction false} TextLeTotal(a: string, b: string)
    ensures TextLe(a, b) || TextLe(b, a)
    ensures TextLe(a, b) && TextLe(b, a) ==> a == b
    decreases |a|
  {
    if a != "" && b != "" {
      TextLeTotal(a[1..], b[1..]);
      assert a == [a[0]] + a[1..] && b == [b[0]] + b[1..];
    }
  }

  lemma {:induction false} TextLeTransitive(a: string, b: string, c: string)
    requires TextLe(a, b) && TextLe(b, c)
    ensures TextLe(a, c)
    decreases |a|
  {
    if a != "" && a[0] == b[0] == c[0] {
      TextLeTransitive(a[1..], b[1..], c[1..]);
    }
  }
}
