/** Stable sorting, the orders it makes, and when such an order is the only one. */
module Sorting {

  /** `before` is a strict weak order, the kind of comparison a sort key induces. */
  ghost predicate StrictWeak<T(!new)>(before: (T, T) -> bool) {
    && (forall a :: !before(a, a))
    && (forall a, b, c :: before(a, b) && before(b, c) ==> before(a, c))
    && (forall a, b, c :: before(a, c) ==> before(a, b) || before(b, c))
  }

  ghost predicate Ordered<T(!new)>(r: (T, T) -> bool, s: seq<T>) {
    forall i, j | 0 <= i < j < |s| :: r(s[i], s[j])
  }

  function Insert<T>(before: (T, T) -> bool, x: T, s: seq<T>): seq<T> {
    if s != [] && before(s[0], x) then [s[0]] + Insert(before, x, s[1..]) else [x] + s
  }

  /** Stable sort: elements that compare equal keep their order. */
  function StableSort<T>(before: (T, T) -> bool, s: seq<T>): seq<T> {
    if s == [] then [] else Insert(before, s[0], StableSort(before, s[1..]))
  }

  /** Compare by `before`, and by `tie` among equals. */
  function Then<T>(before: (T, T) -> bool, tie: (T, T) -> bool): (T, T) -> bool {
    (a, b) => before(a, b) || (!before(b, a) && tie(a, b))
  }

  lemma ThenMeaning<T>(before: (T, T) -> bool, tie: (T, T) -> bool, a: T, b: T)
    ensures Then(before, tie)(a, b) <==> before(a, b) || (!before(b, a) && tie(a, b))
  {}

  lemma {:induction false} InsertElements<T>(before: (T, T) -> bool, x: T, s: seq<T>)
    ensures multiset(Insert(before, x, s)) == multiset{x} + multiset(s)
  {
    if s != [] && before(s[0], x) {
      InsertElements(before, x, s[1..]);
      assert s == [s[0]] + s[1..];
    }
  }

  lemma {:induction false} SortElements<T>(before: (T, T) -> bool, s: seq<T>)
    ensures multiset(StableSort(before, s)) == multiset(s)
  {
    if s == [] {
    } else {
      SortElements(before, s[1..]);
      InsertElements(before, s[0], StableSort(before, s[1..]));
      assert s == [s[0]] + s[1..];
    }
  }

  lemma {:induction false} InsertOrders<T(!new)>(before: (T, T) -> bool, tie: (T, T) -> bool, x: T, s: seq<T>)
    requires StrictWeak(before)
    requires Ordered(Then(before, tie), s)
    requires forall y <- s :: tie(x, y)
    ensures Ordered(Then(before, tie), Insert(before, x, s))
  {
    if s != [] && before(s[0], x) {
      InsertOrders(before, tie, x, s[1..]);
      var rest := Insert(before, x, s[1..]);
      InsertElements(before, x, s[1..]);
      forall j | 0 <= j < |rest|
        ensures Then(before, tie)(s[0], rest[j])
      {
        assert rest[j] in multiset(rest);
        if rest[j] != x {
          assert rest[j] in s[1..];
          var k :| 0 <= k < |s[1..]| && s[1..][k] == rest[j];
          assert s[k + 1] == rest[j];
        }
      }
    } else {
      forall j | 0 <= j < |s|
        ensures Then(before, tie)(x, s[j])
      {
        assert s[j] in s;
        assert j > 0 ==> Then(before, tie)(s[0], s[j]);
      }
    }
  }

  /** Sorting stably by `before` a list ordered by `tie` orders it lexicographically. */
  lemma {:induction false} StableSortIsLexicographic<T(!new)>(before: (T, T) -> bool, tie: (T, T) -> bool, s: seq<T>)
    requires StrictWeak(before)
    requires Ordered(tie, s)
    ensures Ordered(Then(before, tie), StableSort(before, s))
  {
    if s == [] {
    } else {
      OrderedTail(tie, s);
      StableSortIsLexicographic(before, tie, s[1..]);
      SortElements(before, s[1..]);
      forall y <- StableSort(before, s[1..])
        ensures tie(s[0], y)
      {
        assert y in multiset(StableSort(before, s[1..]));
        assert y in s[1..];
        var k :| 0 <= k < |s[1..]| && s[1..][k] == y;
        assert s[k + 1] == y;
      }
      InsertOrders(before, tie, s[0], StableSort(before, s[1..]));
    }
  }

  lemma FirstComesFirst<T(!new)>(r: (T, T) -> bool, s: seq<T>)
    requires s != [] && Ordered(r, s)
    ensures forall x <- s :: x == s[0] || r(s[0], x)
  {
    forall x <- s
      ensures x == s[0] || r(s[0], x)
    {
      var i :| 0 <= i < |s| && s[i] == x;
    }
  }

  lemma OrderedTail<T(!new)>(r: (T, T) -> bool, s: seq<T>)
    requires s != [] && Ordered(r, s)
    ensures Ordered(r, s[1..])
  {
    assert forall i | 0 <= i < |s[1..]| :: s[1..][i] == s[i + 1];
  }

  lemma MultisetTail<T>(s: seq<T>)
    requires s != []
    ensures multiset(s) == multiset{s[0]} + multiset(s[1..])
  {
    assert s == [s[0]] + s[1..];
  }

  /** The first element is the same in any order of the same elements. */
  lemma SameFirst<T(!new)>(r: (T, T) -> bool, s: seq<T>, t: seq<T>)
    requires forall a, b :: r(a, b) ==> !r(b, a)
    requires s != [] && t != [] && Ordered(r, s) && Ordered(r, t)
    requires multiset(s) == multiset(t)
    ensures s[0] == t[0]
  {
    FirstComesFirst(r, s);
    FirstComesFirst(r, t);
    assert s[0] in multiset(t) && t[0] in multiset(s);
  }

  /** Two lists of the same elements, both strictly ordered by an asymmetric relation, are equal. */
  lemma {:induction false} OrderIsUnique<T(!new)>(r: (T, T) -> bool, s: seq<T>, t: seq<T>)
    requires forall a, b :: r(a, b) ==> !r(b, a)
    requires Ordered(r, s) && Ordered(r, t)
    requires multiset(s) == multiset(t)
    ensures s == t
  {
    assert |multiset(s)| == |s| && |multiset(t)| == |t|;
    if s != [] {
      SameFirst(r, s, t);
      MultisetTail(s);
      MultisetTail(t);
      assert multiset(s[1..]) == multiset(s) - multiset{s[0]} == multiset(t[1..]);
      OrderedTail(r, s);
      OrderedTail(r, t);
      OrderIsUnique(r, s[1..], t[1..]);
    }
  }
}
