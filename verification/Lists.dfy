/** Lists without repetition, and sums over lists. */
module Lists {

  ghost predicate Distinct<T>(s: seq<T>) {
    forall i, j | 0 <= i < j < |s| :: s[i] != s[j]
  }

  function Elements<T(==)>(s: seq<T>): set<T> {
    set x | x in s
  }

  function Mapped<T, U>(f: T -> U, s: seq<T>): seq<U> {
    seq(|s|, i requires 0 <= i < |s| => f(s[i]))
  }

  lemma MappedElements<T, U>(f: T -> U, s: seq<T>)
    ensures forall y :: y in Mapped(f, s) <==> exists x <- s :: f(x) == y
  {
    forall y
      ensures y in Mapped(f, s) <==> exists x <- s :: f(x) == y
    {
      if y in Mapped(f, s) {
        var i :| 0 <= i < |s| && Mapped(f, s)[i] == y;
        assert s[i] in s && f(s[i]) == y;
      }
      if x :| x in s && f(x) == y {
        var i :| 0 <= i < |s| && s[i] == x;
        assert Mapped(f, s)[i] == y;
      }
    }
  }

  lemma ElementsFirst<T>(s: seq<T>)
    requires s != []
    ensures Elements(s) == {s[0]} + Elements(s[1..])
  {
    assert s == [s[0]] + s[1..];
  }

  lemma TailIsDistinct<T>(s: seq<T>)
    requires s != [] && Distinct(s)
    ensures s[0] !in s[1..] && Distinct(s[1..])
  {
    assert forall j | 0 <= j < |s[1..]| :: s[1..][j] == s[j + 1];
  }

  lemma DistinctFirst<T>(s: seq<T>)
    requires s != []
    ensures Distinct(s) <==> s[0] !in s[1..] && Distinct(s[1..])
  {
    if Distinct(s) {
      TailIsDistinct(s);
    }
    if s[0] !in s[1..] && Distinct(s[1..]) {
      forall i, j | 0 <= i < j < |s|
        ensures s[i] != s[j]
      {
        assert s[j] == s[1..][j - 1];
        assert i > 0 ==> s[i] == s[1..][i - 1];
      }
    }
  }

  lemma {:induction false} DistinctSize<T>(s: seq<T>)
    ensures |Elements(s)| <= |s|
    ensures Distinct(s) <==> |Elements(s)| == |s|
  {
    if s == [] {
    } else {
      DistinctSize(s[1..]);
      ElementsFirst(s);
      DistinctFirst(s);
      if s[0] in s[1..] {
        assert Elements(s) == Elements(s[1..]);
      }
    }
  }

  lemma OnlyElement<T>(s: seq<T>, x: T)
    requires s != [] && Distinct(s) && forall y <- s :: y == x
    ensures s == [x]
  {
    var first, last := s[0], s[|s| - 1];
    assert first in s && last in s;
  }

  /** What is left of a list without its `i`-th element. */
  function Without<T>(s: seq<T>, i: nat): seq<T>
    requires i < |s|
  {
    s[..i] + s[i + 1..]
  }

  lemma DistinctWithout<T>(s: seq<T>, i: nat)
    requires i < |s| && Distinct(s)
    ensures Distinct(Without(s, i))
    ensures forall x :: x in Without(s, i) <==> x in s && x != s[i]
  {
    var r := Without(s, i);
    assert forall j | 0 <= j < |r| :: r[j] == s[if j < i then j else j + 1];
    forall x | x in s && x != s[i]
      ensures x in r
    {
      var j :| 0 <= j < |s| && s[j] == x;
      assert x == r[if j < i then j else j - 1];
    }
  }

  lemma LastRejoins<T>(s: seq<T>)
    requires s != []
    ensures s[..|s| - 1] + [s[|s| - 1]] == s
  {}

  // ---------- sums ----------

  function Sum<T>(f: T -> real, s: seq<T>): real {
    if s == [] then 0.0 else f(s[0]) + Sum(f, s[1..])
  }

  lemma {:induction false} SumAppend<T>(f: T -> real, s: seq<T>, t: seq<T>)
    ensures Sum(f, s + t) == Sum(f, s) + Sum(f, t)
  {
    if s == [] {
      assert s + t == t;
    } else {
      assert (s + t)[1..] == s[1..] + t;
      SumAppend(f, s[1..], t);
    }
  }

  lemma SumOne<T>(f: T -> real, s: seq<T>, x: T)
    ensures Sum(f, s + [x]) == Sum(f, s) + f(x)
  {
    SumAppend(f, s, [x]);
    assert [x][1..] == [];
    assert Sum(f, [x]) == f(x) + Sum(f, []);
  }

  lemma SumMiddle<T>(f: T -> real, a: seq<T>, x: T, b: seq<T>)
    ensures Sum(f, a + ([x] + b)) == f(x) + Sum(f, a + b)
  {
    SumAppend(f, a, [x] + b);
    SumAppend(f, a, b);
    assert ([x] + b)[1..] == b;
  }

  lemma Cut<T>(s: seq<T>, i: nat)
    requires i < |s|
    ensures s == s[..i] + ([s[i]] + s[i + 1..])
  {}

  lemma SumWithout<T>(f: T -> real, s: seq<T>, i: nat)
    requires i < |s|
    ensures Sum(f, s) == f(s[i]) + Sum(f, Without(s, i))
  {
    SumMiddle(f, s[..i], s[i], s[i + 1..]);
    Cut(s, i);
  }

  lemma {:induction false} SumAgrees<T>(f: T -> real, g: T -> real, s: seq<T>)
    requires forall x <- s :: f(x) == g(x)
    ensures Sum(f, s) == Sum(g, s)
  {
    if s == [] {
    } else {
      SumAgrees(f, g, s[1..]);
    }
  }

  lemma {:induction false} SumBounds<T>(f: T -> real, s: seq<T>, lo: real, hi: real)
    requires forall x <- s :: lo <= f(x) <= hi
    ensures lo * |s| as real <= Sum(f, s) <= hi * |s| as real
  {
    if s == [] {
    } else {
      SumBounds(f, s[1..], lo, hi);
      Step(lo, |s[1..]| as real);
      Step(hi, |s[1..]| as real);
    }
  }

  lemma Step(x: real, n: real)
    ensures x * (n + 1.0) == x * n + x
  {}

  /** A sum over distinct elements does not depend on their order. */
  lemma {:induction false} SumPermuted<T>(f: T -> real, s: seq<T>, t: seq<T>)
    requires Distinct(s) && Distinct(t) && forall x :: x in s <==> x in t
    ensures Sum(f, s) == Sum(f, t) && |s| == |t|
  {
    if s == [] {
      DistinctSize(t);
      assert Elements(t) == {};
    } else {
      assert s[0] in t;
      var j :| 0 <= j < |t| && t[j] == s[0];
      SumWithout(f, t, j);
      DistinctWithout(t, j);
      DistinctFirst(s);
      assert forall x :: x in s <==> x == s[0] || x in s[1..];
      SumPermuted(f, s[1..], Without(t, j));
    }
  }

  // ---------- lists gathered from the elements of a list ----------

  function Gather<T, U>(pick: T -> seq<U>, s: seq<T>): seq<U> {
    if s == [] then [] else pick(s[0]) + Gather(pick, s[1..])
  }

  lemma {:induction false} GatherSnoc<T, U>(pick: T -> seq<U>, s: seq<T>, x: T)
    ensures Gather(pick, s + [x]) == Gather(pick, s) + pick(x)
  {
    if s == [] {
      assert (s + [x])[1..] == [];
    } else {
      assert (s + [x])[1..] == s[1..] + [x];
      GatherSnoc(pick, s[1..], x);
    }
  }

  lemma {:induction false} GatherElements<T, U>(pick: T -> seq<U>, s: seq<T>, y: U)
    ensures y in Gather(pick, s) <==> exists x <- s :: y in pick(x)
  {
    if s == [] {
    } else {
      GatherElements(pick, s[1..], y);
      assert s == [s[0]] + s[1..];
    }
  }
}
