/** Strings in code-point order, the order in which the controller sorts names and keys, and prefixes. */
module Text {

  datatype Option<+T> = None | Some(value: T)

  lemma PrefixNext<T>(s: seq<T>, i: nat)
    requires i < |s|
    ensures s[..i + 1] == s[..i] + [s[i]]
  {}

  predicate Less(a: string, b: string) {
    b != [] && (a == [] || a[0] < b[0] || (a[0] == b[0] && Less(a[1..], b[1..])))
  }

  lemma {:induction false} LessIrreflexive(a: string)
    ensures !Less(a, a)
  {
    if a == [] {
    } else {
      LessIrreflexive(a[1..]);
    }
  }

  lemma {:induction false} LessTransitive(a: string, b: string, c: string)
    requires Less(a, b) && Less(b, c)
    ensures Less(a, c)
  {
    if a != [] && a[0] == b[0] == c[0] {
      LessTransitive(a[1..], b[1..], c[1..]);
    }
  }

  lemma {:induction false} LessTotal(a: string, b: string)
    ensures a == b || Less(a, b) || Less(b, a)
  {
    if a != [] && b != [] && a[0] == b[0] {
      LessTotal(a[1..], b[1..]);
      assert a == [a[0]] + a[1..] && b == [b[0]] + b[1..];
    }
  }

  ghost predicate IsLeast(m: string, s: set<string>) {
    m in s && forall x <- s :: x == m || Less(m, x)
  }

  lemma {:induction false} LeastExists(s: set<string>)
    requires s != {}
    ensures exists m :: IsLeast(m, s)
  {
    var x :| x in s;
    var rest := s - {x};
    if rest == {} {
      assert s == {x};
      assert IsLeast(x, s);
    } else {
      LeastExists(rest);
      var m :| IsLeast(m, rest);
      LessTotal(m, x);
      var least := if Less(x, m) then x else m;
      forall y <- s
        ensures y == least || Less(least, y)
      {
        if y in rest && y != m && least == x {
          LessTransitive(x, m, y);
        }
      }
      assert IsLeast(least, s);
    }
  }

  lemma LeastUnique(m: string, n: string, s: set<string>)
    requires IsLeast(m, s) && IsLeast(n, s)
    ensures m == n
  {
    if m != n {
      LessTransitive(m, n, m);
      LessIrreflexive(m);
    }
  }

  /** The first element of a nonempty set in sorted order. */
  ghost function Least(s: set<string>): (m: string)
    requires s != {}
    ensures IsLeast(m, s)
  {
    LeastExists(s);
    var m :| IsLeast(m, s);
    m
  }

  method FindLeast(s: set<string>) returns (m: string)
    requires s != {}
    ensures m == Least(s)
  {
    m :| m in s;
    var rest := s - {m};
    while rest != {}
      invariant m in s && rest <= s
      invariant forall x <- s - rest :: x == m || Less(m, x)
      decreases rest
    {
      var x :| x in rest;
      rest := rest - {x};
      LessTotal(m, x);
      if Less(x, m) {
        forall y <- s - rest
          ensures y == x || Less(x, y)
        {
          if y != x && y != m {
            LessTransitive(x, m, y);
          }
        }
        m := x;
      }
    }
    LeastUnique(m, Least(s), s);
  }

  /** The elements of a set in ascending order. */
  ghost function Sorted(s: set<string>): (r: seq<string>)
    ensures |r| == |s|
    ensures forall x :: x in s <==> x in r
  {
    if s == {} then [] else [Least(s)] + Sorted(s - {Least(s)})
  }

  ghost predicate Ascending(r: seq<string>) {
    forall i, j | 0 <= i < j < |r| :: Less(r[i], r[j])
  }

  lemma {:induction false} SortedAscends(s: set<string>)
    ensures Ascending(Sorted(s))
  {
    if s == {} {
    } else {
      var rest := Sorted(s - {Least(s)});
      SortedAscends(s - {Least(s)});
      forall j | 0 <= j < |rest|
        ensures Less(Least(s), rest[j])
      {
        assert rest[j] in rest;
      }
    }
  }

  lemma {:induction false} AscendingUnique(r: seq<string>, s: set<string>)
    requires Ascending(r)
    requires forall x :: x in s <==> x in r
    ensures r == Sorted(s)
  {
    if r == [] {
      assert s == {};
    } else {
      assert r[0] in s;
      var m := Least(s);
      assert r[0] == m by {
        assert m in r;
        var i :| 0 <= i < |r| && r[i] == m;
        if i != 0 {
          assert r[0] in s;
          LessTransitive(r[0], m, r[0]);
          LessIrreflexive(r[0]);
        }
      }
      forall x
        ensures x in s - {m} <==> x in r[1..]
      {
        if x in r[1..] {
          LessIrreflexive(m);
        }
        if x in s - {m} {
          assert r == [r[0]] + r[1..];
        }
      }
      AscendingUnique(r[1..], s - {m});
    }
  }
}
