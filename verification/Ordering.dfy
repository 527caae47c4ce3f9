/** Sorting by a total order: Python's `sorted`, and the fact that equal multisets sort to equal
    sequences. */
module Ordering {

  ghost predicate TotalOrder<T(!new)>(le: (T, T) -> bool) {
    && (forall a, b :: le(a, b) || le(b, a))
    && (forall a, b :: le(a, b) && le(b, a) ==> a == b)
    && (forall a, b, c :: le(a, b) && le(b, c) ==> le(a, c))
  }

  ghost predicate SortedBy<T>(xs: seq<T>, le: (T, T) -> bool) {
    forall i, j :: 0 <= i < j < |xs| ==> le(xs[i], xs[j])
  }

  function Insert<T>(x: T, xs: seq<T>, le: (T, T) -> bool): seq<T> {
    if xs == [] then [x]
    else if le(x, xs[0]) then [x] + xs
    else [xs[0]] + Insert(x, xs[1..], le)
  }

  function Sort<T>(xs: seq<T>, le: (T, T) -> bool): seq<T> {
    if xs == [] then [] else Insert(xs[0], Sort(xs[1..], le), le)
  }

  lemma {:induction false} InsertAdds<T>(x: T, xs: seq<T>, le: (T, T) -> bool)
    ensures multiset(Insert(x, xs, le)) == multiset{x} + multiset(xs)
  {
    if xs == [] {
    } else {
      InsertAdds(x, xs[1..], le);
      assert xs == [xs[0]] + xs[1..];
    }
  }

  lemma {:induction false} InsertKeepsOrder<T(!new)>(x: T, xs: seq<T>, le: (T, T) -> bool)
    requires TotalOrder(le) && SortedBy(xs, le)
    ensures SortedBy(Insert(x, xs, le), le)
  {
    if xs != [] && !le(x, xs[0]) {
      var rest := Insert(x, xs[1..], le);
      InsertKeepsOrder(x, xs[1..], le);
      InsertAdds(x, xs[1..], le);
      forall i | 0 <= i < |rest| ensures le(xs[0], rest[i]) {
        assert rest[i] in multiset(rest);
      }
    }
  }

  lemma {:induction false} SortSorts<T(!new)>(xs: seq<T>, le: (T, T) -> bool)
    requires TotalOrder(le)
    ensures multiset(Sort(xs, le)) == multiset(xs)
    ensures SortedBy(Sort(xs, le), le)
  {
    if xs == [] {
    } else {
      assert xs == [xs[0]] + xs[1..];
      SortSorts(xs[1..], le);
      InsertAdds(xs[0], Sort(xs[1..], le), le);
      InsertKeepsOrder(xs[0], Sort(xs[1..], le), le);
    }
  }

  lemma FirstIsLeast<T(!new)>(xs: seq<T>, y: T, le: (T, T) -> bool)
    requires TotalOrder(le) && SortedBy(xs, le) && y in xs
    ensures le(xs[0], y)
  {
  }

  lemma RestOf<T>(xs: seq<T>)
    requires xs != []
    ensures multiset(xs) == multiset{xs[0]} + multiset(xs[1..])
  {
    assert xs == [xs[0]] + xs[1..];
  }

  lemma FirstOfSorted<T(!new)>(xs: seq<T>, ys: seq<T>, le: (T, T) -> bool)
    requires TotalOrder(le) && SortedBy(xs, le) && SortedBy(ys, le)
    requires multiset(xs) == multiset(ys) && xs != []
    ensures ys != [] && xs[0] == ys[0] && multiset(xs[1..]) == multiset(ys[1..])
  {
    assert xs[0] in multiset(ys);
    assert ys[0] in multiset(xs);
    FirstIsLeast(xs, ys[0], le);
    FirstIsLeast(ys, xs[0], le);
    RestOf(xs);
    RestOf(ys);
    hide SortedBy;
    assert xs[0] == ys[0];
    assert multiset(xs[1..]) == multiset(xs) - multiset{xs[0]};
    assert multiset(ys[1..]) == multiset(ys) - multiset{ys[0]};
  }

  /** Two sorted arrangements of the same elements are the same sequence. */
  lemma {:induction false} SortedUnique<T(!new)>(xs: seq<T>, ys: seq<T>, le: (T, T) -> bool)
    requires TotalOrder(le) && SortedBy(xs, le) && SortedBy(ys, le)
    requires multiset(xs) == multiset(ys)
    ensures xs == ys
  {
    if xs == [] {
      assert |multiset(ys)| == 0;
    } else {
      FirstOfSorted(xs, ys, le);
      SortedUnique(xs[1..], ys[1..], le);
      assert xs == [xs[0]] + xs[1..] && ys == [ys[0]] + ys[1..];
    }
  }

  /** Sorting forgets the order of its input, and nothing else. */
  lemma SortForgetsOrder<T(!new)>(xs: seq<T>, ys: seq<T>, le: (T, T) -> bool)
    requires TotalOrder(le)
    ensures Sort(xs, le) == Sort(ys, le) <==> multiset(xs) == multiset(ys)
  {
    SortSorts(xs, le);
    SortSorts(ys, le);
    if multiset(xs) == multiset(ys) {
      SortedUnique(Sort(xs, le), Sort(ys, le), le);
    }
  }

  // ---- Strings, compared code point by code point ----

  predicate StrLe(a: string, b: string) {
    a == "" || (b != "" && (a[0] < b[0] || (a[0] == b[0] && StrLe(a[1..], b[1..]))))
  }

  lemma {:induction false} StrLeTotal(a: string, b: string)
    ensures StrLe(a, b) || StrLe(b, a)
    ensures StrLe(a, b) && StrLe(b, a) ==> a == b
  {
    if a != "" && b != "" && a[0] == b[0] {
      StrLeTotal(a[1..], b[1..]);
      assert a == [a[0]] + a[1..] && b == [b[0]] + b[1..];
    }
  }

  lemma {:induction false} StrLeTransitive(a: string, b: string, c: string)
    requires StrLe(a, b) && StrLe(b, c)
    ensures StrLe(a, c)
  {
    if a != "" && a[0] == b[0] == c[0] {
      StrLeTransitive(a[1..], b[1..], c[1..]);
    }
  }

  ghost predicate Injective<T(!new)>(key: T -> string) {
    forall a, b :: key(a) == key(b) ==> a == b
  }

  /** The order `sorted(..., key=key)` uses. */
  function KeyOrder<T>(key: T -> string): (T, T) -> bool {
    (a, b) => StrLe(key(a), key(b))
  }

  lemma KeyOrderTotal<T(!new)>(key: T -> string)
    requires Injective(key)
    ensures TotalOrder(KeyOrder(key))
  {
    var le := KeyOrder(key);
    forall a, b ensures (le(a, b) || le(b, a)) && (le(a, b) && le(b, a) ==> a == b) {
      StrLeTotal(key(a), key(b));
    }
    forall a, b, c | le(a, b) && le(b, c) ensures le(a, c) {
      StrLeTransitive(key(a), key(b), key(c));
    }
  }
}
