/** The solver as it runs: a worklist per selection and an explicit stack of lazy branches. */
module Solver {
  import opened Text
  import opened Requirements
  import opened Closure
  import opened Search
  import opened Asking
  import opened Catalog

  datatype Pending = Pending(requirement: Requirement, extra: string, vendor: bool)

  datatype ClosureResult =
    | Rejected
    | Raised
    | Fixed(needed: map<string, seq<Requirement>>, extras: map<string, set<string>>)

  function ListAt(m: map<string, seq<Requirement>>, name: string): seq<Requirement> {
    if name in m then m[name] else []
  }

  function SetAt(m: map<string, set<string>>, name: string): set<string> {
    if name in m then m[name] else {}
  }

  function CanonicalExtras(pkg: Packaging, r: Requirement): set<string> {
    set e <- r.extras :: pkg.canonicalizeName(e)
  }

  predicate AcceptsWheel(p: Problem, constraints: map<string, seq<Requirement>>, w: Wheel,
                         requirements: seq<Requirement>, extras: set<string>) {
    && extras <= w.extras
    && (w.name in p.hashes && p.hashes[w.name] != {} ==> w.sha256 in p.hashes[w.name])
    && (p.allowed.Some? ==> w.artifact in p.allowed.value)
    && w.tags * p.tags != {}
    && Matches(p.pkg, w.requiresPython, p.interpreter)
    && MatchesAll(p.pkg, w.version, requirements)
    && MatchesAll(p.pkg, w.version, ListAt(constraints, w.name))
  }

  /** `constraints` groups exactly the applicable constraints by name. */
  ghost predicate GroupsConstraints(p: Problem, constraints: map<string, seq<Requirement>>) {
    forall name :: KeysOf(p.pkg, ListAt(constraints, name)) == ConstraintsOn(Canonical(p), name)
  }

  lemma SatisfiesAgrees(p: Problem, version: string, rs: seq<Requirement>)
    requires ClausesKeepMeaning(p.pkg)
    ensures MatchesAll(p.pkg, version, rs) == Satisfies(Canonical(p), version, KeysOf(p.pkg, rs))
  {
    forall r <- rs
      ensures Matches(p.pkg, r.specifier, version) == Matches(p.pkg, KeyOf(p.pkg, r).specifier, version)
      ensures KeyOf(p.pkg, r) in KeysOf(p.pkg, rs)
    {
      KeyMeaning(p.pkg, r, version);
    }
  }

  /** Testing a wheel against requirements is the same as testing it against their keys. */
  lemma AcceptsAgrees(p: Problem, constraints: map<string, seq<Requirement>>, w: Wheel,
                      rs: seq<Requirement>, extras: set<string>)
    requires ClausesKeepMeaning(p.pkg) && GroupsConstraints(p, constraints)
    ensures AcceptsWheel(p, constraints, w, rs, extras) == Accepts(Canonical(p), w, KeysOf(p.pkg, rs), extras)
  {
    SatisfiesAgrees(p, w.version, rs);
    SatisfiesAgrees(p, w.version, ListAt(constraints, w.name));
  }

  lemma KeysOfAppend(pkg: Packaging, rs: seq<Requirement>, more: seq<Requirement>)
    ensures KeysOf(pkg, rs + more) == KeysOf(pkg, rs) + KeysOf(pkg, more)
  {
    forall r <- rs + more
      ensures r in rs || r in more
    {}
    forall r <- rs
      ensures r in rs + more
    {}
    forall r <- more
      ensures r in rs + more
    {}
  }

  lemma KeysOfFew(pkg: Packaging, r: Requirement)
    ensures KeysOf(pkg, []) == {} && KeysOf(pkg, [r]) == {KeyOf(pkg, r)}
  {}

  ghost function ApplicableKeys(pkg: Packaging, cs: seq<Requirement>, name: string): set<Key> {
    set c | c in cs && MarkerVerdict(pkg, c.marker, "") == Applies && pkg.canonicalizeName(c.name) == name ::
      KeyOf(pkg, c)
  }

  lemma ApplicableAppend(pkg: Packaging, cs: seq<Requirement>, c: Requirement, name: string)
    ensures ApplicableKeys(pkg, cs + [c], name) == ApplicableKeys(pkg, cs, name) + ApplicableKeys(pkg, [c], name)
  {
    forall x <- cs + [c]
      ensures x in cs || x in [c]
    {}
    assert c in cs + [c] && forall x <- cs :: x in cs + [c];
  }

  ghost predicate GroupsSome(pkg: Packaging, cs: seq<Requirement>, grouped: map<string, seq<Requirement>>) {
    forall name :: KeysOf(pkg, ListAt(grouped, name)) == ApplicableKeys(pkg, cs, name)
  }

  lemma GroupsNext(pkg: Packaging, cs: seq<Requirement>, c: Requirement, grouped: map<string, seq<Requirement>>)
    requires GroupsSome(pkg, cs, grouped)
    ensures GroupsSome(pkg, cs + [c], GroupOne(pkg, grouped, c))
  {
    forall n
      ensures KeysOf(pkg, ListAt(GroupOne(pkg, grouped, c), n)) == ApplicableKeys(pkg, cs + [c], n)
    {
      ApplicableAppend(pkg, cs, c, n);
      KeysOfAppend(pkg, ListAt(grouped, n), [c]);
    }
  }

  function GroupOne(
    pkg: Packaging, grouped: map<string, seq<Requirement>>, c: Requirement): map<string, seq<Requirement>> {
    var name := pkg.canonicalizeName(c.name);
    if MarkerVerdict(pkg, c.marker, "") == Applies then grouped[name := ListAt(grouped, name) + [c]] else grouped
  }

  /** The constraints that apply to the target, grouped by name; `None` if one is unsafe or cannot be evaluated. */
  method GroupConstraints(p: Problem) returns (r: Option<map<string, seq<Requirement>>>)
    ensures r.None? <==> BadConstraint(Canonical(p)) || exists c <- p.constraints :: !p.pkg.safe(c)
    ensures r.Some? ==> GroupsConstraints(p, r.value)
  {
    var grouped: map<string, seq<Requirement>> := map[];
    for i := 0 to |p.constraints|
      invariant forall c <- p.constraints[..i] :: p.pkg.safe(c) && MarkerVerdict(p.pkg, c.marker, "") != Unevaluable
      invariant GroupsSome(p.pkg, p.constraints[..i], grouped)
    {
      var c := p.constraints[i];
      if !p.pkg.safe(c) || MarkerVerdict(p.pkg, c.marker, "") == Unevaluable {
        assert c in p.constraints && KeyOf(p.pkg, c) in Canonical(p).constraints;
        return None;
      }
      PrefixNext(p.constraints, i);
      GroupsNext(p.pkg, p.constraints[..i], c, grouped);
      grouped := GroupOne(p.pkg, grouped, c);
    }
    assert p.constraints[..|p.constraints|] == p.constraints;
    GroupsAll(p, grouped);
    return Some(grouped);
  }

  lemma GroupsAll(p: Problem, grouped: map<string, seq<Requirement>>)
    requires GroupsSome(p.pkg, p.constraints, grouped)
    ensures GroupsConstraints(p, grouped)
  {
    forall name
      ensures ApplicableKeys(p.pkg, p.constraints, name) == ConstraintsOn(Canonical(p), name)
    {}
  }

  // ---------- the worklist of `closure` ----------

  function ItemOf(pkg: Packaging, w: Pending): Item {
    Item(KeyOf(pkg, w.requirement), w.extra)
  }

  ghost function Waiting(pkg: Packaging, pending: seq<Pending>): set<Item> {
    set w <- pending :: ItemOf(pkg, w)
  }

  /** The tables hold exactly what the items seen so far make necessary. */
  ghost predicate Recorded(p: Problem, done: set<Item>, needed: map<string, seq<Requirement>>,
      extras: map<string, set<string>>, known: set<(string, Key)>)
  {
    NeededIs(p, done, needed) && ExtrasAre(p, done, extras) && KnownIs(p, done, known)
  }

  ghost predicate NeededIs(p: Problem, done: set<Item>, needed: map<string, seq<Requirement>>) {
    && needed.Keys == NamesIn(Canonical(p), done)
    && forall n <- needed :: KeysOf(p.pkg, needed[n]) == KeysFor(Canonical(p), done, n)
  }

  ghost predicate ExtrasAre(p: Problem, done: set<Item>, extras: map<string, set<string>>) {
    && extras.Keys == NamesIn(Canonical(p), done)
    && forall n <- extras :: extras[n] == ExtrasOf(KeysFor(Canonical(p), done, n))
  }

  ghost predicate KnownIs(p: Problem, done: set<Item>, known: set<(string, Key)>) {
    forall n, k :: (n, k) in known <==> k in KeysFor(Canonical(p), done, n)
  }

  /** Nothing outside the closure was seen, and what is still missing from it hangs on a waiting item. */
  ghost predicate Frontier(
    q: Query, sel: Selection, done: set<Item>, expanded: set<(string, string)>, waiting: set<Item>) {
    && done + waiting <= Reach(q, sel)
    && (forall i <- done :: ItemVerdict(q, i) != Unevaluable)
    && (forall j :: Rooted(q, j) ==> j in done + waiting)
    && (forall n, x, d :: (n, x) in expanded && n in sel && d in DependencyKeys(q, sel[n]) ==>
       Item(d, x) in done + waiting)
    && (forall i, x :: i in done && Active(q, i) && i.key.name in sel && (x == "" || x in i.key.extras) ==>
       (i.key.name, x) in expanded)
  }

  ghost predicate AllAccepted(q: Query, sel: Selection, done: set<Item>) {
    forall n <- NamesIn(q, done) :: n in sel ==> Accepts(q, sel[n], KeysFor(q, done, n), ExtrasOf(KeysFor(q, done, n)))
  }

  lemma FrontierComplete(q: Query, sel: Selection, done: set<Item>, expanded: set<(string, string)>)
    requires Frontier(q, sel, done, expanded, {})
    ensures done == Reach(q, sel)
  {
    forall i, j | i in done && Pulls(q, sel, i, j)
      ensures j in done
    {
      assert (i.key.name, j.extra) in expanded;
      assert Item(j.key, j.extra) in done + {};
    }
    forall j | Rooted(q, j)
      ensures j in done
    {
      assert j in done + {};
    }
    ReachUnique(q, sel, done);
  }

  lemma RecordOne(p: Problem, done: set<Item>, i: Item, n: string)
    ensures var q := Canonical(p);
            KeysFor(q, done + {i}, n) == KeysFor(q, done, n) + (if Active(q, i) && i.key.name == n then {i.key} else {})
  {}

  lemma ExtrasOfUnion(a: set<Key>, k: Key)
    ensures ExtrasOf(a + {k}) == ExtrasOf(a) + k.extras
  {}

  /** Items pulled in by a wheel stay inside the closure. */
  lemma PulledIsReached(q: Query, sel: Selection, done: set<Item>, n: string, x: string, d: Key)
    requires done <= Reach(q, sel) && n in sel && n in NamesIn(q, done)
    requires x == "" || x in ExtrasOf(KeysFor(q, done, n))
    requires d in DependencyKeys(q, sel[n])
    ensures Item(d, x) in Reach(q, sel)
  {
    ReachIsLeast(q, sel);
    if x == "" {
      var i :| i in done && Active(q, i) && i.key.name == n;
      assert Pulls(q, sel, i, Item(d, x));
    } else {
      var k :| k in KeysFor(q, done, n) && x in k.extras;
      var i :| i in done && Active(q, i) && i.key.name == n && i.key == k;
      assert Pulls(q, sel, i, Item(d, x));
    }
  }

  /** A wheel refused under part of the closure, or a dependency marker without a verdict, is a conflict. */
  lemma EarlyRefusal(q: Query, sel: Selection, done: set<Item>, n: string)
    requires done <= Reach(q, sel) && n in sel && n in NamesIn(q, done)
    requires !Accepts(q, sel[n], KeysFor(q, done, n), ExtrasOf(KeysFor(q, done, n)))
    ensures Conflict(q, sel)
  {
    assert KeysFor(q, done, n) <= Needed(q, sel, n);
    if !Refused(q, sel, n) {
      AcceptsAntitone(q, sel[n], KeysFor(q, done, n), Needed(q, sel, n));
    }
    assert n in NeededNames(q, sel);
  }

  /** How one more applicable item changes what the seen items make necessary. */
  lemma RecordedOne(p: Problem, done: set<Item>, requirement: Requirement, extra: string)
    requires MarkerVerdict(p.pkg, requirement.marker, extra) == Applies
    ensures var q, key := Canonical(p), KeyOf(p.pkg, requirement);
            var more := done + {Item(key, extra)};
            && NamesIn(q, more) == NamesIn(q, done) + {key.name}
            && (forall n :: KeysFor(q, more, n) == KeysFor(q, done, n) + (if n == key.name then {key} else {}))
            && (forall n ::
               ExtrasOf(KeysFor(q, more, n)) ==
                 ExtrasOf(KeysFor(q, done, n)) + (if n == key.name then key.extras else {}))
            && (forall n | n !in NamesIn(q, done) :: KeysFor(q, done, n) == {} && ExtrasOf(KeysFor(q, done, n)) == {})
  {
    var q, key := Canonical(p), KeyOf(p.pkg, requirement);
    var i := Item(key, extra);
    assert Active(q, i);
    forall n
      ensures KeysFor(q, done + {i}, n) == KeysFor(q, done, n) + (if n == key.name then {key} else {})
      ensures ExtrasOf(KeysFor(q, done + {i}, n)) ==
              ExtrasOf(KeysFor(q, done, n)) + (if n == key.name then key.extras else {})
    {
      RecordOne(p, done, i, n);
      ExtrasOfUnion(KeysFor(q, done, n), key);
    }
  }

  lemma NeededAfter(p: Problem, done: set<Item>, requirement: Requirement, extra: string,
      needed: map<string, seq<Requirement>>)
    requires MarkerVerdict(p.pkg, requirement.marker, extra) == Applies && NeededIs(p, done, needed)
    ensures var key := KeyOf(p.pkg, requirement);
            NeededIs(p, done + {Item(key, extra)}, needed[key.name := ListAt(needed, key.name) + [requirement]])
  {
    var key := KeyOf(p.pkg, requirement);
    RecordedOne(p, done, requirement, extra);
    KeysOfAppend(p.pkg, ListAt(needed, key.name), [requirement]);
    KeysOfFew(p.pkg, requirement);
  }

  lemma NeededAgain(p: Problem, done: set<Item>, requirement: Requirement, extra: string,
      needed: map<string, seq<Requirement>>)
    requires MarkerVerdict(p.pkg, requirement.marker, extra) == Applies && NeededIs(p, done, needed)
    requires KeyOf(p.pkg, requirement) in KeysFor(Canonical(p), done, KeyOf(p.pkg, requirement).name)
    ensures NeededIs(p, done + {Item(KeyOf(p.pkg, requirement), extra)}, needed)
  {
    RecordedOne(p, done, requirement, extra);
  }

  lemma ExtrasAfter(
    p: Problem, done: set<Item>, requirement: Requirement, extra: string, extras: map<string, set<string>>)
    requires MarkerVerdict(p.pkg, requirement.marker, extra) == Applies && ExtrasAre(p, done, extras)
    ensures var key := KeyOf(p.pkg, requirement);
            ExtrasAre(p, done + {Item(key, extra)},
                      extras[key.name := SetAt(extras, key.name) + CanonicalExtras(p.pkg, requirement)])
  {
    RecordedOne(p, done, requirement, extra);
  }

  lemma KnownAfter(p: Problem, done: set<Item>, requirement: Requirement, extra: string, known: set<(string, Key)>)
    requires MarkerVerdict(p.pkg, requirement.marker, extra) == Applies && KnownIs(p, done, known)
    ensures var key := KeyOf(p.pkg, requirement);
            KnownIs(p, done + {Item(key, extra)}, known + {(key.name, key)})
  {
    var key := KeyOf(p.pkg, requirement);
    var more := done + {Item(key, extra)};
    RecordedOne(p, done, requirement, extra);
    forall n, k
      ensures (n, k) in known + {(key.name, key)} <==> k in KeysFor(Canonical(p), more, n)
    {
      assert (n, k) in known <==> k in KeysFor(Canonical(p), done, n);
    }
  }

  method Record(p: Problem, ghost done: set<Item>, requirement: Requirement, extra: string,
      needed: map<string, seq<Requirement>>, extras: map<string, set<string>>, known: set<(string, Key)>)
      returns (needed': map<string, seq<Requirement>>, extras': map<string, set<string>>, known': set<(string, Key)>)
    requires Recorded(p, done, needed, extras, known)
    requires MarkerVerdict(p.pkg, requirement.marker, extra) == Applies
    ensures Recorded(p, done + {Item(KeyOf(p.pkg, requirement), extra)}, needed', extras', known')
  {
    var name := p.pkg.canonicalizeName(requirement.name);
    var key := KeyOf(p.pkg, requirement);
    ExtrasAfter(p, done, requirement, extra, extras);
    KnownAfter(p, done, requirement, extra, known);
    needed', known' := needed, known + {(name, key)};
    if (name, key) !in known {
      NeededAfter(p, done, requirement, extra, needed);
      needed' := needed[name := ListAt(needed, name) + [requirement]];
    } else {
      NeededAgain(p, done, requirement, extra, needed);
    }
    extras' := extras[name := SetAt(extras, name) + CanonicalExtras(p.pkg, requirement)];
  }

  /** Pushes the dependencies of a selected wheel under each enabled extra not expanded before. */
  method Expand(
    wheel: Wheel, name: string, requested: set<string>, expanded: set<(string, string)>, pending: seq<Pending>)
      returns (expanded': set<(string, string)>, pending': seq<Pending>)
    ensures expanded' == expanded + (set x <- {""} + requested :: (name, x))
    ensures expanded <= expanded' && pending <= pending'
    ensures forall w <- pending'[|pending|..] ::
              w.vendor && w.requirement in wheel.requirements && (name, w.extra) in expanded' - expanded
    ensures forall x, d :: (name, x) in expanded' - expanded && d in wheel.requirements ==>
            Pending(d, x, true) in pending'
    ensures expanded' == expanded ==> pending' == pending
  {
    expanded', pending' := expanded, pending;
    var rest := {""} + requested;
    while rest != {}
      invariant rest <= {""} + requested
      invariant expanded' == expanded + (set x <- {""} + requested - rest :: (name, x))
      invariant pending <= pending'
      invariant forall w <- pending'[|pending|..] ::
                  w.vendor && w.requirement in wheel.requirements && (name, w.extra) in expanded' - expanded
      invariant forall x, d :: (name, x) in expanded' - expanded && d in wheel.requirements ==>
                Pending(d, x, true) in pending'
      invariant expanded' == expanded ==> pending' == pending
      decreases rest
    {
      var x := FindLeast(rest);
      if (name, x) !in expanded' {
        var pushed := seq(|wheel.requirements|,
          j requires 0 <= j < |wheel.requirements| => Pending(wheel.requirements[j], x, true));
        forall d <- wheel.requirements
          ensures Pending(d, x, true) in pushed
        {
          var j :| 0 <= j < |wheel.requirements| && wheel.requirements[j] == d;
          assert pushed[j] == Pending(d, x, true);
        }
        assert (pending' + pushed)[|pending|..] == pending'[|pending|..] + pushed;
        expanded', pending' := expanded' + {(name, x)}, pending' + pushed;
      }
      rest := rest - {x};
    }
  }

  ghost function Pairs(q: Query, sel: Selection): set<(string, string)> {
    set n, x | n in sel && x in MentionedExtras(q, sel) :: (n, x)
  }

  lemma RequestedIsMentioned(q: Query, sel: Selection, done: set<Item>, n: string)
    requires done <= Reach(q, sel)
    ensures {""} + ExtrasOf(KeysFor(q, done, n)) <= MentionedExtras(q, sel)
  {
    forall x <- ExtrasOf(KeysFor(q, done, n))
      ensures x in MentionedExtras(q, sel)
    {
      var k :| k in KeysFor(q, done, n) && x in k.extras;
      var i :| i in done && i.key == k;
      assert i in Universe(q, sel);
    }
  }

  /** One item leaves the worklist; `wheel` is the wheel selected for it, expanded under the requested extras. */
  lemma FrontierStep(
    q: Query, sel: Selection, done: set<Item>, i: Item, n: string, requested: set<string>,
    expanded: set<(string, string)>, rest: set<Item>, expanded': set<(string, string)>, rest': set<Item>)
    requires Frontier(q, sel, done, expanded, rest + {i})
    requires Active(q, i) && i.key.name == n && n in sel
    requires requested == ExtrasOf(KeysFor(q, done + {i}, n))
    requires expanded' == expanded + (set x <- {""} + requested :: (n, x))
    requires rest <= rest'
    requires forall j <- rest' - rest :: j.key in DependencyKeys(q, sel[n]) && (n, j.extra) in expanded' - expanded
    requires forall x, d :: (n, x) in expanded' - expanded && d in DependencyKeys(q, sel[n]) ==> Item(d, x) in rest'
    ensures Frontier(q, sel, done + {i}, expanded', rest')
  {
    var more := done + {i};
    assert i.key in KeysFor(q, more, n);
    assert i.key.extras <= requested;
    assert n in NamesIn(q, more);
    forall j <- rest' - rest
      ensures j in Reach(q, sel)
    {
      PulledIsReached(q, sel, more, n, j.extra, j.key);
    }
  }

  lemma FrontierSkip(
    q: Query, sel: Selection, done: set<Item>, i: Item, expanded: set<(string, string)>, rest: set<Item>)
    requires Frontier(q, sel, done, expanded, rest + {i})
    requires ItemVerdict(q, i) != Unevaluable && (Active(q, i) ==> i.key.name !in sel)
    ensures Frontier(q, sel, done + {i}, expanded, rest)
  {}

  lemma WaitingAppend(pkg: Packaging, pending: seq<Pending>, more: seq<Pending>)
    ensures Waiting(pkg, pending + more) == Waiting(pkg, pending) + Waiting(pkg, more)
  {
    forall w <- pending + more
      ensures w in pending || w in more
    {}
    assert forall w <- pending :: w in pending + more;
    assert forall w <- more :: w in pending + more;
  }

  /** The non-vendor entries of the worklist are root requirements under no extra. */
  ghost predicate RootsUnmarked(p: Problem, pending: seq<Pending>) {
    forall w <- pending :: !w.vendor ==> w.requirement in p.roots && w.extra == ""
  }

  /** What expanding a wheel pushes, seen as items. */
  lemma PushedItems(
    p: Problem, wheel: Wheel, n: string, expanded: set<(string, string)>, expanded': set<(string, string)>,
    pending: seq<Pending>, pending': seq<Pending>)
    requires pending <= pending'
    requires forall w <- pending'[|pending|..] ::
               w.vendor && w.requirement in wheel.requirements && (n, w.extra) in expanded' - expanded
    requires forall x, d :: (n, x) in expanded' - expanded && d in wheel.requirements ==>
             Pending(d, x, true) in pending'
    ensures var q := Canonical(p);
            && Waiting(p.pkg, pending) <= Waiting(p.pkg, pending')
            && (forall j <- Waiting(p.pkg, pending') - Waiting(p.pkg, pending) ::
                  j.key in DependencyKeys(q, wheel) && (n, j.extra) in expanded' - expanded)
            && (forall x, d :: (n, x) in expanded' - expanded && d in DependencyKeys(q, wheel) ==>
                  Item(d, x) in Waiting(p.pkg, pending'))
    ensures RootsUnmarked(p, pending) ==> RootsUnmarked(p, pending')
  {
    var more := pending'[|pending|..];
    assert pending' == pending + more;
    WaitingAppend(p.pkg, pending, more);
    forall x, d | (n, x) in expanded' - expanded && d in DependencyKeys(Canonical(p), wheel)
      ensures Item(d, x) in Waiting(p.pkg, pending')
    {
      var r :| r in wheel.requirements && KeyOf(p.pkg, r) == d;
      assert ItemOf(p.pkg, Pending(r, x, true)) == Item(d, x);
    }
    forall w <- pending'
      ensures w in pending || w in more
    {}
  }

  /** The mutable tables of one `closure` call. */
  datatype Tables = Tables(needed: map<string, seq<Requirement>>, extras: map<string, set<string>>,
                           expanded: set<(string, string)>, known: set<(string, Key)>, pending: seq<Pending>)

  ghost predicate Tracks(p: Problem, sel: Selection, done: set<Item>, t: Tables) {
    var q := Canonical(p);
    && Recorded(p, done, t.needed, t.extras, t.known)
    && Frontier(q, sel, done, t.expanded, Waiting(p.pkg, t.pending))
    && AllAccepted(q, sel, done)
    && RootsUnmarked(p, t.pending)
    && t.expanded <= Pairs(q, sel)
    && (sel == map[] ==> forall w <- t.pending :: !w.vendor)
  }

  lemma AcceptedRecord(p: Problem, sel: Selection, done: set<Item>, i: Item)
    requires AllAccepted(Canonical(p), sel, done)
    requires i.key.name in sel ==>
               var keys := KeysFor(Canonical(p), done + {i}, i.key.name);
               Accepts(Canonical(p), sel[i.key.name], keys, ExtrasOf(keys))
    ensures AllAccepted(Canonical(p), sel, done + {i})
  {
    forall n | n != i.key.name
      ensures KeysFor(Canonical(p), done + {i}, n) == KeysFor(Canonical(p), done, n)
    {
      RecordOne(p, done, i, n);
    }
  }

  /** `Tracks`, with `item` just taken off the worklist. */
  ghost predicate Popped(p: Problem, sel: Selection, done: set<Item>, item: Item, t: Tables) {
    var q := Canonical(p);
    && Frontier(q, sel, done, t.expanded, Waiting(p.pkg, t.pending) + {item})
    && AllAccepted(q, sel, done)
    && RootsUnmarked(p, t.pending)
    && t.expanded <= Pairs(q, sel)
    && (sel == map[] ==> forall w <- t.pending :: !w.vendor)
  }

  lemma TracksPopped(p: Problem, sel: Selection, done: set<Item>, t: Tables, next: Pending)
    requires Tracks(p, sel, done, t.(pending := t.pending + [next]))
    ensures Popped(p, sel, done, ItemOf(p.pkg, next), t)
  {
    WaitingAppend(p.pkg, t.pending, [next]);
    assert Waiting(p.pkg, [next]) == {ItemOf(p.pkg, next)};
    assert forall w <- t.pending :: w in t.pending + [next];
  }

  lemma TracksUnselected(p: Problem, sel: Selection, done: set<Item>, item: Item, t: Tables)
    requires Popped(p, sel, done, item, t)
    requires Active(Canonical(p), item) && item.key.name !in sel
    requires Recorded(p, done + {item}, t.needed, t.extras, t.known)
    ensures Tracks(p, sel, done + {item}, t)
  {
    FrontierSkip(Canonical(p), sel, done, item, t.expanded, Waiting(p.pkg, t.pending));
    AcceptedRecord(p, sel, done, item);
  }

  lemma TracksSkipped(p: Problem, sel: Selection, done: set<Item>, t: Tables, next: Pending)
    requires Tracks(p, sel, done, t.(pending := t.pending + [next]))
    requires MarkerVerdict(p.pkg, next.requirement.marker, next.extra) == Skipped
    ensures Tracks(p, sel, done + {ItemOf(p.pkg, next)}, t)
  {
    var item := ItemOf(p.pkg, next);
    TracksPopped(p, sel, done, t, next);
    FrontierSkip(Canonical(p), sel, done, item, t.expanded, Waiting(p.pkg, t.pending));
    SkippedRecord(p, done, item, t.needed, t.extras, t.known);
  }

  /** A marker without a verdict stops the call: a refusal if a wheel declared it, an error if the candidate did. */
  lemma UnevaluableStops(p: Problem, sel: Selection, done: set<Item>, t: Tables, next: Pending)
    requires Tracks(p, sel, done, t.(pending := t.pending + [next]))
    requires MarkerVerdict(p.pkg, next.requirement.marker, next.extra) == Unevaluable
    ensures if next.vendor then Conflict(Canonical(p), sel) && sel != map[] else BadRoot(Canonical(p))
  {
    var item := ItemOf(p.pkg, next);
    assert next in t.pending + [next];
    assert item in Waiting(p.pkg, t.pending + [next]);
    if !next.vendor {
      assert item.key in Canonical(p).roots;
    }
  }

  /** A turn either expands something new or pushes nothing. */
  ghost predicate Progress(t: Tables, t': Tables) {
    t.expanded <= t'.expanded && (t'.expanded == t.expanded ==> t'.pending == t.pending)
  }

  /** An applicable requirement on a selected wheel: test the wheel, then push its dependencies. */
  method VisitSelected(p: Problem, constraints: map<string, seq<Requirement>>, sel: Selection, ghost done: set<Item>,
                       ghost item: Item, t: Tables, name: string) returns (accepted: bool, t': Tables)
    requires ClausesKeepMeaning(p.pkg) && GroupsConstraints(p, constraints)
    requires Active(Canonical(p), item) && item.key.name == name && name in sel && sel[name].name == name
    requires Popped(p, sel, done, item, t)
    requires Recorded(p, done + {item}, t.needed, t.extras, t.known)
    ensures !accepted ==> Conflict(Canonical(p), sel)
    ensures accepted ==> Tracks(p, sel, done + {item}, t')
    ensures accepted ==> Progress(t, t')
  {
    ghost var q := Canonical(p);
    ghost var more := done + {item};
    assert name in NamesIn(q, more);
    AcceptsAgrees(p, constraints, sel[name], t.needed[name], t.extras[name]);
    if !AcceptsWheel(p, constraints, sel[name], t.needed[name], t.extras[name]) {
      EarlyRefusal(q, sel, more, name);
      return false, t;
    }
    AcceptedRecord(p, sel, done, item);
    var expanded, pending := Expand(sel[name], name, t.extras[name], t.expanded, t.pending);
    PushedItems(p, sel[name], name, t.expanded, expanded, t.pending, pending);
    FrontierStep(
      q, sel, done, item, name, t.extras[name], t.expanded, Waiting(p.pkg, t.pending), expanded,
      Waiting(p.pkg, pending));
    RequestedIsMentioned(q, sel, more, name);
    return true, t.(expanded := expanded, pending := pending);
  }

  /** A requirement that applies: record it, and visit the wheel selected for its name, if any. */
  method VisitApplicable(p: Problem, constraints: map<string, seq<Requirement>>, sel: Selection, ghost done: set<Item>,
                         t: Tables, next: Pending) returns (accepted: bool, t': Tables)
    requires ClausesKeepMeaning(p.pkg) && GroupsConstraints(p, constraints)
    requires forall n <- sel :: sel[n].name == n
    requires Recorded(p, done, t.needed, t.extras, t.known) && Popped(p, sel, done, ItemOf(p.pkg, next), t)
    requires MarkerVerdict(p.pkg, next.requirement.marker, next.extra) == Applies
    ensures !accepted ==> Conflict(Canonical(p), sel) && sel != map[]
    ensures accepted ==> Tracks(p, sel, done + {ItemOf(p.pkg, next)}, t')
    ensures accepted ==> Progress(t, t')
  {
    ghost var item := ItemOf(p.pkg, next);
    var needed, extras, known := Record(p, done, next.requirement, next.extra, t.needed, t.extras, t.known);
    t' := t.(needed := needed, extras := extras, known := known);
    var name := p.pkg.canonicalizeName(next.requirement.name);
    if name in sel {
      accepted, t' := VisitSelected(p, constraints, sel, done, item, t', name);
    } else {
      TracksUnselected(p, sel, done, item, t');
      accepted := true;
    }
  }

  /** One turn of the worklist loop. */
  method Visit(p: Problem, constraints: map<string, seq<Requirement>>, sel: Selection, ghost done: set<Item>, t: Tables)
      returns (stop: Option<ClosureResult>, t': Tables, ghost done': set<Item>)
    requires ClausesKeepMeaning(p.pkg) && GroupsConstraints(p, constraints)
    requires forall n <- sel :: sel[n].name == n
    requires Tracks(p, sel, done, t) && t.pending != []
    ensures stop.Some? ==>
              || (stop.value.Raised? && BadRoot(Canonical(p)))
              || (stop.value.Rejected? && Conflict(Canonical(p), sel) && sel != map[])
    ensures stop.None? ==> Tracks(p, sel, done', t')
    ensures stop.None? ==> t.expanded <= t'.expanded && (t'.expanded == t.expanded ==> |t'.pending| < |t.pending|)
  {
    var next := t.pending[|t.pending| - 1];
    t' := t.(pending := t.pending[..|t.pending| - 1]);
    assert t'.pending + [next] == t.pending && t == t'.(pending := t'.pending + [next]);
    done' := done + {ItemOf(p.pkg, next)};
    match MarkerVerdict(p.pkg, next.requirement.marker, next.extra)
    case Unevaluable =>
      UnevaluableStops(p, sel, done, t', next);
      stop := Some(if next.vendor then Rejected else Raised);
    case Skipped =>
      TracksSkipped(p, sel, done, t', next);
      stop := None;
    case Applies =>
      var accepted;
      TracksPopped(p, sel, done, t', next);
      accepted, t' := VisitApplicable(p, constraints, sel, done, t', next);
      stop := if accepted then None else Some(Rejected);
  }

  method StartTables(p: Problem, ghost sel: Selection) returns (t: Tables)
    ensures Tracks(p, sel, {}, t)
  {
    ghost var q := Canonical(p);
    var pending := seq(|p.roots|, j requires 0 <= j < |p.roots| => Pending(p.roots[j], "", false));
    t := Tables(map[], map[], {}, {}, pending);
    ReachIsLeast(q, sel);
    forall j | Rooted(q, j)
      ensures j in Waiting(p.pkg, pending)
    {
      var root :| root in p.roots && KeyOf(p.pkg, root) == j.key;
      var at :| 0 <= at < |p.roots| && p.roots[at] == root;
      assert pending[at] in pending && ItemOf(p.pkg, pending[at]) == j;
    }
    forall j <- Waiting(p.pkg, pending)
      ensures Rooted(q, j)
    {}
  }

  /** The two tables list, for each needed name, its requirements (once per key) and its requested extras. */
  ghost predicate Yields(
    p: Problem, sel: Selection, needed: map<string, seq<Requirement>>, extras: map<string, set<string>>) {
    var q := Canonical(p);
    && needed.Keys == extras.Keys == NeededNames(q, sel)
    && forall n <- needed :: KeysOf(p.pkg, needed[n]) == Needed(q, sel, n) && extras[n] == ExtrasOf(Needed(q, sel, n))
  }

  /**
   The requirements and extras a selection makes necessary, or the refusal of the selection.
   The result is the least fixed point whatever the order in which the worklist is emptied.
   */
  method ComputeClosure(
    p: Problem, constraints: map<string, seq<Requirement>>, sel: Selection) returns (r: ClosureResult)
    requires ClausesKeepMeaning(p.pkg) && GroupsConstraints(p, constraints)
    requires forall n <- sel :: sel[n].name == n
    ensures var q := Canonical(p);
            !BadRoot(q) ==>
              && !r.Raised?
              && (r.Rejected? <==> Conflict(q, sel))
              && (r.Fixed? ==> Yields(p, sel, r.needed, r.extras))
    ensures BadRoot(Canonical(p)) ==> !r.Fixed? && (sel == map[] ==> r.Raised?)
  {
    ghost var q := Canonical(p);
    var t := StartTables(p, sel);
    ghost var done: set<Item> := {};
    while t.pending != []
      invariant Tracks(p, sel, done, t)
      decreases Pairs(q, sel) - t.expanded, |t.pending|
    {
      var stop;
      stop, t, done := Visit(p, constraints, sel, done, t);
      if stop.Some? {
        return stop.value;
      }
    }
    FrontierComplete(q, sel, done, t.expanded);
    AllEvaluated(q, sel);
    return Fixed(t.needed, t.extras);
  }

  /** A closure with only evaluated items and accepted wheels has no conflict and no bad root. */
  lemma AllEvaluated(q: Query, sel: Selection)
    requires forall i <- Reach(q, sel) :: ItemVerdict(q, i) != Unevaluable
    requires AllAccepted(q, sel, Reach(q, sel))
    ensures !BadRoot(q) && !Conflict(q, sel)
  {
    ReachIsLeast(q, sel);
    forall k <- q.roots
      ensures MarkerVerdict(q.pkg, k.marker, "") != Unevaluable
    {
      assert Rooted(q, Item(k, ""));
      assert ItemVerdict(q, Item(k, "")) != Unevaluable;
    }
  }

  lemma SkippedRecord(p: Problem, done: set<Item>, i: Item, needed: map<string, seq<Requirement>>,
                      extras: map<string, set<string>>, known: set<(string, Key)>)
    requires Recorded(p, done, needed, extras, known) && !Active(Canonical(p), i)
    ensures Recorded(p, done + {i}, needed, extras, known)
    ensures NamesIn(Canonical(p), done + {i}) == NamesIn(Canonical(p), done)
    ensures forall n :: KeysFor(Canonical(p), done + {i}, n) == KeysFor(Canonical(p), done, n)
  {
    forall n
      ensures KeysFor(Canonical(p), done + {i}, n) == KeysFor(Canonical(p), done, n)
    {
      RecordOne(p, done, i, n);
    }
  }

  // ---------- the provider ----------

  /** Where the wheels come from: a frozen roster, or the registry. */
  datatype Supply = Archive(roster: Selection) | Live(catalog: RegistryCatalog)

  function Objects(s: Supply): set<object> {
    if s.Live? then {s.catalog} else {}
  }

  /** The supply is in order, and reads requirements as this candidate's target does. */
  ghost predicate Serves(s: Supply, pkg: Packaging)
    reads Objects(s)
  {
    s.Live? ==> s.catalog.Valid() && s.catalog.pkg == pkg
  }

  /** The names asked for so far, as far as the supply keeps track of them. */
  ghost function Seen(s: Supply): set<string>
    reads Objects(s)
  {
    if s.Live? then s.catalog.visited else {}
  }

  /** These are among them. */
  ghost predicate Saw(s: Supply, names: set<string>)
    reads Objects(s)
  {
    s.Live? ==> names <= Seen(s)
  }

  /** Besides the names known before, exactly these were asked for. */
  ghost predicate HasAsked(s: Supply, before: set<string>, names: set<string>)
    reads Objects(s)
  {
    s.Live? ==> Seen(s) == before + names
  }

  /** Of the names to be asked for, nothing but these is left, and no others were asked for. */
  ghost predicate Underway(before: set<string>, seen: set<string>, names: set<string>, rest: set<string>) {
    before <= seen <= before + names && names - rest <= seen && rest <= names
  }

  lemma UnderwayFirst(before: set<string>, names: set<string>)
    ensures Underway(before, before, names, names)
  {}

  lemma UnderwayLast(before: set<string>, names: set<string>, seen: set<string>, rest: set<string>)
    requires Underway(before, seen, names, rest)
    ensures rest == {} ==> seen == before + names
  {}

  lemma UnderwayNext(before: set<string>, names: set<string>, seen: set<string>, rest: set<string>,
      seen': set<string>, rest': set<string>)
    requires Underway(before, seen, names, rest)
    requires seen <= seen' <= seen + rest && rest - rest' <= seen' && rest' <= rest
    ensures Underway(before, seen', names, rest')
  {}

  /** The offline provider: the archived wheels and nothing else. */
  function RosterOptions(roster: Selection): Options {
    (name, requirements, hashes, pre) => Stream(if name in roster then [roster[name]] else [], None)
  }

  ghost function OptionsOf(s: Supply, pkg: Packaging): Options {
    match s
    case Archive(roster) => RosterOptions(roster)
    case Live(catalog) => RegistryOptions(pkg, catalog.World())
  }

  /** The names for which a supply may have wheels, and what it offers. */
  ghost function RosterOf(s: Supply): set<string> {
    match s
    case Archive(roster) => roster.Keys
    case Live(catalog) => Known(catalog.World())
  }

  ghost function OffersOf(s: Supply, pkg: Packaging): (o: Offers)
    ensures Bounded(o, RosterOf(s))
  {
    match s
    case Archive(roster) => RosterOffers(roster)
    case Live(catalog) =>
      RegistryIsBounded(pkg, catalog.World());
      RegistryOffers(pkg, catalog.World())
  }

  /** What a supply offers depends on the requirements through their keys only. */
  lemma SupplyReflects(s: Supply, pkg: Packaging, name: string, requirements: seq<Requirement>,
      hashes: Option<set<string>>, prefer: bool)
    requires ClausesKeepMeaning(pkg)
    ensures OptionsOf(s, pkg)(name, requirements, hashes, prefer) ==
            OffersOf(s, pkg)(name, KeysOf(pkg, requirements), hashes, prefer)
  {
    if s.Live? {
      RegistryReflects(pkg, s.catalog.World());
    }
  }

  /** One question to the provider. */
  method Offer(s: Supply, pkg: Packaging, name: string, requirements: seq<Requirement>, hashes: Option<set<string>>,
      prefer: bool) returns (offered: Stream)
    requires Serves(s, pkg)
    modifies Objects(s)
    ensures Serves(s, pkg) && offered == OptionsOf(s, pkg)(name, requirements, hashes, prefer)
    ensures s.Live? ==> s.catalog.visited == old(s.catalog.visited) + {name}
  {
    match s {
      case Archive(roster) =>
        offered := Stream(if name in roster then [roster[name]] else [], None);
      case Live(catalog) =>
        offered := catalog.Options(name, requirements, hashes, prefer);
    }
  }

  // ---------- the search ----------

  /** A suspended iterator: the initial one, an exhausted one, or the rest of the offers for one name. */
  datatype Frame =
    | Start
    | Exhausted
    | Branch(base: Selection, name: string, demand: seq<Requirement>, extras: set<string>, rest: Stream)

  ghost predicate FrameOk(p: Problem, roster: set<string>, f: Frame) {
    var q := Canonical(p);
    f.Branch? ==>
      && f.name !in f.base
      && (forall n <- f.base :: f.base[n].name == n)
      && (f.rest.wheels == [] || f.name in roster)
      && (f.rest.wheels != [] ==>
            && TermsFor(q, f.name).Some?
            && KeysOf(p.pkg, f.demand) == Demand(q, f.base, f.name, TermsFor(q, f.name).value)
            && f.extras == ExtrasOf(Needed(q, f.base, f.name)))
  }

  ghost function FrameOutcome(p: Problem, offers: Offers, roster: set<string>, f: Frame): Outcome
    requires Bounded(offers, roster) && FrameOk(p, roster, f)
  {
    match f
    case Start => Explore(Canonical(p), offers, roster, map[])
    case Exhausted => NoClosure
    case Branch(base, name, _, _, rest) => Try(Canonical(p), offers, roster, base, name, rest)
  }

  /** The names for which a suspended iterator will still make the search ask. */
  ghost function FrameAsked(p: Problem, offers: Offers, roster: set<string>, f: Frame): set<string>
    requires Bounded(offers, roster) && FrameOk(p, roster, f)
  {
    match f
    case Start => Asked(Canonical(p), offers, roster, map[])
    case Exhausted => {}
    case Branch(base, name, _, _, rest) => AskedBy(Canonical(p), offers, roster, base, name, rest)
  }

  ghost predicate StackOk(p: Problem, roster: set<string>, stack: seq<Frame>) {
    forall f <- stack :: FrameOk(p, roster, f)
  }

  /** What the search returns when it resumes with this stack. */
  ghost function Resume(p: Problem, offers: Offers, roster: set<string>, stack: seq<Frame>): Outcome
    requires Bounded(offers, roster) && StackOk(p, roster, stack)
  {
    if stack == [] then NoClosure
    else
      var top := stack[|stack| - 1];
      var r := FrameOutcome(p, offers, roster, top);
      if r.NoClosure? then Resume(p, offers, roster, stack[..|stack| - 1]) else r
  }

  /** What it asks for until then. */
  ghost function StackAsked(p: Problem, offers: Offers, roster: set<string>, stack: seq<Frame>): set<string>
    requires Bounded(offers, roster) && StackOk(p, roster, stack)
  {
    if stack == [] then {}
    else
      var top := stack[|stack| - 1];
      FrameAsked(p, offers, roster, top) +
      if FrameOutcome(p, offers, roster, top).NoClosure? then StackAsked(p, offers, roster, stack[..|stack| - 1])
      else {}
  }

  // How many turns of the main loop are left: a natural number that every turn decreases.

  ghost function WorkNode(q: Query, offers: Offers, roster: set<string>, sel: Selection): nat
    requires Bounded(offers, roster)
    decreases roster - sel.Keys, 1, 0
  {
    if Conflict(q, sel) || Missing(q, sel) == {} then 1
    else
      var name := Least(Missing(q, sel));
      2 + WorkOffers(q, offers, roster, sel, name, OfferedFor(q, offers, sel, name))
  }

  ghost function WorkOffers(q: Query, offers: Offers, roster: set<string>, sel: Selection, name: string, s: Stream): nat
    requires Bounded(offers, roster)
    requires name !in sel && (s.wheels == [] || name in roster)
    decreases roster - sel.Keys, 0, |s.wheels|
  {
    if s.wheels == [] || s.wheels[0].name != name then 0
    else if !Admitted(q, sel, name, s.wheels[0]) then WorkOffers(q, offers, roster, sel, name, Rest(s))
    else
      assert name in roster - sel.Keys;
      WorkNode(q, offers, roster, sel[name := s.wheels[0]]) + WorkOffers(q, offers, roster, sel, name, Rest(s))
  }

  ghost function FrameWork(p: Problem, offers: Offers, roster: set<string>, f: Frame): nat
    requires Bounded(offers, roster) && FrameOk(p, roster, f)
  {
    match f
    case Start => 1 + WorkNode(Canonical(p), offers, roster, map[])
    case Exhausted => 1
    case Branch(base, name, _, _, rest) => 1 + WorkOffers(Canonical(p), offers, roster, base, name, rest)
  }

  ghost function StackWork(p: Problem, offers: Offers, roster: set<string>, stack: seq<Frame>): nat
    requires Bounded(offers, roster) && StackOk(p, roster, stack)
  {
    if stack == [] then 0
    else FrameWork(p, offers, roster, stack[|stack| - 1]) + StackWork(p, offers, roster, stack[..|stack| - 1])
  }

  method SumWeights(sel: Selection, disk: bool) returns (n: nat)
    ensures n == Total(sel, disk)
  {
    n := 0;
    var rest := sel;
    while rest != map[]
      invariant n + Total(rest, disk) == Total(sel, disk)
      decreases |rest|
    {
      var name :| name in rest;
      TotalRemove(rest, name, disk);
      n, rest := n + Weight(rest[name], disk), rest - {name};
    }
  }

  datatype Advance = Yield(selection: Selection) | Stop | Raise(error: Error)

  /** What advancing an iterator from `f` to `f'` gives, in terms of the recursive search. */
  ghost predicate Advances(p: Problem, offers: Offers, roster: set<string>, f: Frame, a: Advance, f': Frame)
    requires Bounded(offers, roster) && FrameOk(p, roster, f) && FrameOk(p, roster, f')
  {
    var q, o := Canonical(p), FrameOutcome(p, offers, roster, f);
    match a
    case Stop => o.NoClosure? && FrameAsked(p, offers, roster, f) == {}
    case Raise(e) => o == Failed(e) && FrameAsked(p, offers, roster, f) == {}
    case Yield(sel) =>
      var r := Explore(q, offers, roster, sel);
      && (forall n <- sel :: sel[n].name == n)
      && o == (if r.NoClosure? then FrameOutcome(p, offers, roster, f') else r)
      && FrameWork(p, offers, roster, f) == WorkNode(q, offers, roster, sel) + FrameWork(p, offers, roster, f')
      && FrameAsked(p, offers, roster, f) ==
         Asked(q, offers, roster, sel) + if r.NoClosure? then FrameAsked(p, offers, roster, f') else {}
  }

  /** Two iterators between which nothing was yielded. */
  ghost predicate SameFrame(p: Problem, offers: Offers, roster: set<string>, f: Frame, g: Frame)
    requires Bounded(offers, roster) && FrameOk(p, roster, f) && FrameOk(p, roster, g)
  {
    && FrameOutcome(p, offers, roster, f) == FrameOutcome(p, offers, roster, g)
    && FrameAsked(p, offers, roster, f) == FrameAsked(p, offers, roster, g)
    && FrameWork(p, offers, roster, f) == FrameWork(p, offers, roster, g)
  }

  /** Runs a suspended branch up to its next admitted wheel. */
  method Next(p: Problem, constraints: map<string, seq<Requirement>>, ghost offers: Offers, ghost roster: set<string>,
      f: Frame) returns (a: Advance, f': Frame)
    requires ClausesKeepMeaning(p.pkg) && GroupsConstraints(p, constraints)
    requires Bounded(offers, roster) && FrameOk(p, roster, f)
    ensures FrameOk(p, roster, f') && Advances(p, offers, roster, f, a, f')
    ensures f.Start? ==> a == Yield(map[])
  {
    match f
    case Start => return Yield(map[]), Exhausted;
    case Exhausted => return Stop, f;
    case Branch(base, name, demand, extras, offered) =>
      var rest := offered;
      while rest.wheels != []
        invariant FrameOk(p, roster, f.(rest := rest)) && SameFrame(p, offers, roster, f, f.(rest := rest))
        decreases |rest.wheels|
      {
        var w := rest.wheels[0];
        if w.name != name {
          return Raise(PolicyRejected), f;
        }
        var admitted := TryWheel(p, constraints, f.(rest := rest), w);
        if admitted {
          TriedFirst(p, offers, roster, f.(rest := rest));
          return Yield(base[name := w]), f.(rest := Rest(rest));
        }
        rest := Rest(rest);
      }
      return if rest.failure.Some? then Raise(rest.failure.value) else Stop, f;
  }

  /** The filters of `extend` on one wheel. */
  method TryWheel(p: Problem, constraints: map<string, seq<Requirement>>, f: Frame, w: Wheel) returns (admitted: bool)
    requires ClausesKeepMeaning(p.pkg) && GroupsConstraints(p, constraints)
    requires f.Branch? && TermsFor(Canonical(p), f.name).Some?
    requires KeysOf(p.pkg, f.demand) == Demand(Canonical(p), f.base, f.name, TermsFor(Canonical(p), f.name).value)
    requires f.extras == ExtrasOf(Needed(Canonical(p), f.base, f.name))
    ensures admitted <==> Admitted(Canonical(p), f.base, f.name, w)
  {
    AcceptsAgrees(p, constraints, w, f.demand, f.extras);
    if !SafeWheel(p.pkg, w) || !AcceptsWheel(p, constraints, w, f.demand, f.extras) {
      return false;
    }
    var bytes := SumWeights(f.base[f.name := w], false);
    var disk := SumWeights(f.base[f.name := w], true);
    return bytes <= p.maxBytes && disk <= p.maxDisk;
  }

  lemma TriedFirst(p: Problem, offers: Offers, roster: set<string>, f: Frame)
    requires Bounded(offers, roster) && FrameOk(p, roster, f)
    requires f.Branch? && f.rest.wheels != [] && f.rest.wheels[0].name == f.name
    requires Admitted(Canonical(p), f.base, f.name, f.rest.wheels[0])
    ensures FrameOk(p, roster, f.(rest := Rest(f.rest)))
    ensures Advances(p, offers, roster, f, Yield(f.base[f.name := f.rest.wheels[0]]), f.(rest := Rest(f.rest)))
  {
    assert f.name in roster - f.base.Keys;
  }

  /** The list of demands on one missing name, and the hashes that may meet them; `None` if the policy forbids it. */
  method DemandsOn(p: Problem, constraints: map<string, seq<Requirement>>, ghost base: Selection, name: string,
      needed: seq<Requirement>) returns (requirements: seq<Requirement>, hashes: Option<set<string>>, open: bool)
    requires GroupsConstraints(p, constraints)
    requires KeysOf(p.pkg, needed) == Needed(Canonical(p), base, name)
    ensures open <==> TermsFor(Canonical(p), name).Some?
    ensures open ==>
              && KeysOf(p.pkg, requirements) == Demand(Canonical(p), base, name, TermsFor(Canonical(p), name).value)
              && hashes == TermsFor(Canonical(p), name).value.hashes
  {
    requirements := needed + ListAt(constraints, name);
    hashes := Restriction(p.hashes, name);
    if !p.forbidden {
      assert requirements + [] == requirements && KeysOf(p.pkg, []) == {};
      DemandAgrees(p, constraints, base, name, needed, []);
      return requirements, hashes, true;
    }
    FirstPinsHold(p.pkg, p.baseline, name);
    var pin := FirstPin(p.pkg, p.baseline, name);
    if pin.None? || PinnedHashes(hashes, pin.value) == {} {
      return requirements, hashes, false;
    }
    var pinned := PinRequirement(name, pin.value);
    KeysOfFew(p.pkg, pinned);
    DemandAgrees(p, constraints, base, name, needed, [pinned]);
    return requirements + [pinned], Some(PinnedHashes(hashes, pin.value)), true;
  }

  /** The branch on one missing name (`extend`). */
  method Extend(p: Problem, constraints: map<string, seq<Requirement>>, supply: Supply, ghost offers: Offers,
      ghost roster: set<string>, base: Selection, name: string, needed: seq<Requirement>, extras: set<string>)
      returns (f: Frame)
    requires GroupsConstraints(p, constraints) && ClausesKeepMeaning(p.pkg) && Serves(supply, p.pkg)
    requires Bounded(offers, roster) && offers == OffersOf(supply, p.pkg)
    requires name !in base && forall n <- base :: base[n].name == n
    requires KeysOf(p.pkg, needed) == Needed(Canonical(p), base, name)
    requires extras == ExtrasOf(Needed(Canonical(p), base, name))
    modifies Objects(supply)
    ensures Serves(supply, p.pkg) && old(Seen(supply)) <= Seen(supply)
    ensures TermsFor(Canonical(p), name).Some? ==> Saw(supply, {name})
    ensures Seen(supply) <= old(Seen(supply)) + if TermsFor(Canonical(p), name).Some? then {name} else {}
    ensures FrameOk(p, roster, f) && f.Branch? && f.base == base && f.name == name
    ensures f.rest == OfferedFor(Canonical(p), offers, base, name)
  {
    var requirements, hashes, open := DemandsOn(p, constraints, base, name, needed);
    if !open {
      return Branch(base, name, requirements, extras, Stream([], None));
    }
    var pre := exists r <- requirements :: Prereleases(p.pkg, r.specifier);
    PreferenceAgrees(p, requirements);
    SupplyReflects(supply, p.pkg, name, requirements, hashes, pre);
    var offered := Offer(supply, p.pkg, name, requirements, hashes, pre);
    f := Branch(base, name, requirements, extras, offered);
  }

  /** The list of demands on a name covers what is needed of it, the constraints on it and the baseline pin. */
  lemma DemandAgrees(p: Problem, constraints: map<string, seq<Requirement>>, base: Selection, name: string,
      needed: seq<Requirement>, pinned: seq<Requirement>)
    requires GroupsConstraints(p, constraints)
    requires KeysOf(p.pkg, needed) == Needed(Canonical(p), base, name)
    ensures KeysOf(p.pkg, needed + ListAt(constraints, name) + pinned) ==
            Demand(Canonical(p), base, name, Terms(KeysOf(p.pkg, pinned), None))
  {
    KeysOfAppend(p.pkg, needed, ListAt(constraints, name));
    KeysOfAppend(p.pkg, needed + ListAt(constraints, name), pinned);
  }

  lemma PreferenceAgrees(p: Problem, rs: seq<Requirement>)
    requires ClausesKeepMeaning(p.pkg)
    ensures (exists r <- rs :: Prereleases(p.pkg, r.specifier)) <==> PreferPrereleases(Canonical(p), KeysOf(p.pkg, rs))
  {
    forall r <- rs
      ensures Prereleases(p.pkg, KeyOf(p.pkg, r).specifier) == Prereleases(p.pkg, r.specifier)
      ensures KeyOf(p.pkg, r) in KeysOf(p.pkg, rs)
    {
      KeyMeaning(p.pkg, r, "");
    }
  }

  datatype SolveResult = Roster(wheels: seq<Wheel>) | NoRoster | Denied(error: Error)

  ghost function Along(sel: Selection, names: seq<string>): seq<Wheel>
    requires forall n <- names :: n in sel
  {
    if names == [] then [] else [sel[names[0]]] + Along(sel, names[1..])
  }

  /** A selection as the caller receives it: its wheels in name order. */
  ghost function InOrder(sel: Selection): seq<Wheel> {
    Along(sel, Sorted(sel.Keys))
  }

  ghost function Listed(o: Outcome): SolveResult {
    match o
    case Solved(sel) => Roster(InOrder(sel))
    case NoClosure => NoRoster
    case Failed(e) => Denied(e)
  }

  ghost predicate SafeDeclarations(p: Problem) {
    (forall r <- p.roots :: p.pkg.safe(r)) && (forall c <- p.constraints :: p.pkg.safe(c))
  }

  method ListInOrder(sel: Selection) returns (wheels: seq<Wheel>)
    ensures wheels == InOrder(sel)
  {
    wheels := [];
    var rest := sel.Keys;
    while rest != {}
      invariant rest <= sel.Keys
      invariant InOrder(sel) == wheels + Along(sel, Sorted(rest))
      decreases rest
    {
      var name := FindLeast(rest);
      assert Sorted(rest) == [name] + Sorted(rest - {name});
      wheels, rest := wheels + [sel[name]], rest - {name};
    }
  }

  lemma PushFrame(p: Problem, offers: Offers, roster: set<string>, below: seq<Frame>, f: Frame)
    requires Bounded(offers, roster) && StackOk(p, roster, below) && FrameOk(p, roster, f)
    ensures StackOk(p, roster, below + [f])
    ensures StackWork(p, offers, roster, below + [f]) ==
            FrameWork(p, offers, roster, f) + StackWork(p, offers, roster, below)
    ensures var r := FrameOutcome(p, offers, roster, f);
            && Resume(p, offers, roster, below + [f]) == (if r.NoClosure? then Resume(p, offers, roster, below) else r)
            && StackAsked(p, offers, roster, below + [f]) ==
               FrameAsked(p, offers, roster, f) + if r.NoClosure? then StackAsked(p, offers, roster, below) else {}
  {
    assert (below + [f])[..|below + [f]| - 1] == below;
  }

  lemma BranchOn(p: Problem, offers: Offers, roster: set<string>, sel: Selection, f: Frame)
    requires Bounded(offers, roster) && FrameOk(p, roster, f) && f.Branch? && f.base == sel
    requires !Conflict(Canonical(p), sel) && Missing(Canonical(p), sel) != {}
    requires f.name == Least(Missing(Canonical(p), sel)) && f.rest == OfferedFor(Canonical(p), offers, sel, f.name)
    ensures Branches(p, offers, roster, sel, f)
    ensures Asked(Canonical(p), offers, roster, sel) - FrameAsked(p, offers, roster, f) <=
            if TermsFor(Canonical(p), f.name).Some? then {f.name} else {}
    ensures (if TermsFor(Canonical(p), f.name).Some? then {f.name} else {}) + FrameAsked(p, offers, roster, f) <=
            Asked(Canonical(p), offers, roster, sel)
  {}

  /** The frame `f` stands for the search from `sel` on. */
  ghost predicate Branches(p: Problem, offers: Offers, roster: set<string>, sel: Selection, f: Frame)
    requires Bounded(offers, roster) && FrameOk(p, roster, f)
  {
    && Explore(Canonical(p), offers, roster, sel) == FrameOutcome(p, offers, roster, f)
    && WorkNode(Canonical(p), offers, roster, sel) > FrameWork(p, offers, roster, f)
  }

  /** What examining a yielded selection leads to: dropped, returned, or branched on. */
  method Examine(p: Problem, constraints: map<string, seq<Requirement>>, supply: Supply, ghost offers: Offers,
      ghost roster: set<string>, sel: Selection) returns (answer: Option<SolveResult>, branch: Option<Frame>)
    requires ClausesKeepMeaning(p.pkg) && GroupsConstraints(p, constraints) && Serves(supply, p.pkg)
    requires Bounded(offers, roster) && offers == OffersOf(supply, p.pkg)
    requires forall n <- sel :: sel[n].name == n
    requires sel == map[] || !BadRoot(Canonical(p))
    modifies Objects(supply)
    ensures Serves(supply, p.pkg) && old(Seen(supply)) <= Seen(supply)
    ensures BadRoot(Canonical(p)) ==> answer == Some(Denied(SourceRejected)) && Seen(supply) == old(Seen(supply))
    ensures Seen(supply) <= old(Seen(supply)) + Asked(Canonical(p), offers, roster, sel)
    ensures !BadRoot(Canonical(p)) ==>
              var r, asked := Explore(Canonical(p), offers, roster, sel), Asked(Canonical(p), offers, roster, sel);
              && (answer.Some? ==> r.Solved? && answer.value == Listed(r) && asked == {})
              && (answer.None? && branch.None? ==> r.NoClosure? && asked == {})
              && (answer.None? && branch.Some? ==>
                    && FrameOk(p, roster, branch.value) && Branches(p, offers, roster, sel, branch.value)
                    && FrameAsked(p, offers, roster, branch.value) <= asked
                    && Saw(supply, asked - FrameAsked(p, offers, roster, branch.value)))
  {
    var result := ComputeClosure(p, constraints, sel);
    match result {
      case Raised =>
        return Some(Denied(SourceRejected)), None;
      case Rejected =>
        return None, None;
      case Fixed(needed, extras) =>
        var missing := needed.Keys - sel.Keys;
        if missing == {} {
          var wheels := ListInOrder(sel);
          return Some(Roster(wheels)), None;
        }
        var f := BranchFrom(p, constraints, supply, offers, roster, sel, missing, needed, extras);
        return None, Some(f);
    }
  }

  /** The branch on the first missing name. */
  method BranchFrom(p: Problem, constraints: map<string, seq<Requirement>>, supply: Supply, ghost offers: Offers,
      ghost roster: set<string>, sel: Selection, missing: set<string>, needed: map<string, seq<Requirement>>,
      extras: map<string, set<string>>) returns (f: Frame)
    requires ClausesKeepMeaning(p.pkg) && GroupsConstraints(p, constraints) && Serves(supply, p.pkg)
    requires Bounded(offers, roster) && offers == OffersOf(supply, p.pkg)
    requires forall n <- sel :: sel[n].name == n
    requires Yields(p, sel, needed, extras) && !Conflict(Canonical(p), sel)
    requires missing == needed.Keys - sel.Keys && missing != {}
    modifies Objects(supply)
    ensures Serves(supply, p.pkg) && old(Seen(supply)) <= Seen(supply)
    ensures FrameOk(p, roster, f) && Branches(p, offers, roster, sel, f)
    ensures Saw(supply, Asked(Canonical(p), offers, roster, sel) - FrameAsked(p, offers, roster, f))
    ensures Seen(supply) <= old(Seen(supply)) + Asked(Canonical(p), offers, roster, sel)
    ensures FrameAsked(p, offers, roster, f) <= Asked(Canonical(p), offers, roster, sel)
  {
    var name := FindLeast(missing);
    f := Extend(p, constraints, supply, offers, roster, sel, name, needed[name], extras[name]);
    BranchOn(p, offers, roster, sel, f);
  }

  /** One turn of the main loop: advance the top iterator and examine what it yields. */
  method Turn(p: Problem, constraints: map<string, seq<Requirement>>, supply: Supply, ghost offers: Offers,
      ghost roster: set<string>, stack: seq<Frame>) returns (answer: Option<SolveResult>, stack': seq<Frame>)
    requires ClausesKeepMeaning(p.pkg) && GroupsConstraints(p, constraints) && Serves(supply, p.pkg)
    requires Bounded(offers, roster) && offers == OffersOf(supply, p.pkg)
    requires stack != [] && StackOk(p, roster, stack)
    requires stack == [Start] || !BadRoot(Canonical(p))
    modifies Objects(supply)
    ensures Serves(supply, p.pkg) && old(Seen(supply)) <= Seen(supply)
    ensures BadRoot(Canonical(p)) ==> answer == Some(Denied(SourceRejected)) && Seen(supply) == old(Seen(supply))
    ensures Seen(supply) <= old(Seen(supply)) + StackAsked(p, offers, roster, stack)
    ensures !BadRoot(Canonical(p)) && answer.Some? ==>
              && answer.value == Listed(Resume(p, offers, roster, stack))
              && StackAsked(p, offers, roster, stack) == {}
    ensures !BadRoot(Canonical(p)) && answer.None? ==>
              && StackOk(p, roster, stack')
              && Resume(p, offers, roster, stack') == Resume(p, offers, roster, stack)
              && StackWork(p, offers, roster, stack') < StackWork(p, offers, roster, stack)
              && Saw(supply, StackAsked(p, offers, roster, stack) - StackAsked(p, offers, roster, stack'))
              && StackAsked(p, offers, roster, stack') <= StackAsked(p, offers, roster, stack)
  {
    var below := stack[..|stack| - 1];
    var f := stack[|stack| - 1];
    assert stack == below + [f];
    PushFrame(p, offers, roster, below, f);
    var advance, top := Next(p, constraints, offers, roster, f);
    match advance {
      case Stop =>
        return None, below;
      case Raise(e) =>
        return Some(Denied(e)), stack;
      case Yield(selected) =>
        var branch;
        answer, branch := Examine(p, constraints, supply, offers, roster, selected);
        if answer.Some? {
          return answer, stack;
        }
        stack' := PushExamined(p, offers, roster, below, top, selected, branch);
    }
  }

  /** The stack after a yielded selection was examined without an answer. */
  method PushExamined(p: Problem, ghost offers: Offers, ghost roster: set<string>, below: seq<Frame>, top: Frame,
      ghost selected: Selection, branch: Option<Frame>) returns (stack: seq<Frame>)
    requires Bounded(offers, roster) && StackOk(p, roster, below) && FrameOk(p, roster, top)
    requires branch.None? ==> Explore(Canonical(p), offers, roster, selected).NoClosure?
    requires branch.Some? ==> FrameOk(p, roster, branch.value) && Branches(p, offers, roster, selected, branch.value)
    ensures StackOk(p, roster, stack)
    ensures var r := Explore(Canonical(p), offers, roster, selected);
            var t := FrameOutcome(p, offers, roster, top);
            && Resume(p, offers, roster, stack) ==
               (if !r.NoClosure? then r else if !t.NoClosure? then t else Resume(p, offers, roster, below))
            && StackAsked(p, offers, roster, stack) ==
               (if branch.Some? then FrameAsked(p, offers, roster, branch.value) else {}) +
               (if !r.NoClosure? then {} else FrameAsked(p, offers, roster, top)) +
               (if !r.NoClosure? || !t.NoClosure? then {} else StackAsked(p, offers, roster, below))
    ensures StackWork(p, offers, roster, stack) < WorkNode(Canonical(p), offers, roster, selected)
              + FrameWork(p, offers, roster, top) + StackWork(p, offers, roster, below)
  {
    PushFrame(p, offers, roster, below, top);
    stack := below + [top];
    if branch.Some? {
      PushFrame(p, offers, roster, stack, branch.value);
      stack := stack + [branch.value];
    } else {
      WorkPositive(p, offers, roster, selected);
    }
  }

  lemma WorkPositive(p: Problem, offers: Offers, roster: set<string>, sel: Selection)
    requires Bounded(offers, roster)
    ensures WorkNode(Canonical(p), offers, roster, sel) > 0
  {}

  /** Where the main loop has got to; before a bad root is found nothing has been asked for. */
  ghost predicate Runs(p: Problem, offers: Offers, roster: set<string>, stack: seq<Frame>, goal: Outcome,
      asked: set<string>, s: Supply, before: set<string>)
    requires Bounded(offers, roster)
    reads Objects(s)
  {
    && StackOk(p, roster, stack) && Resume(p, offers, roster, stack) == goal
    && if BadRoot(Canonical(p)) then stack == [Start] && HasAsked(s, before, {})
       else s.Live? ==> Underway(before, Seen(s), asked, StackAsked(p, offers, roster, stack))
  }

  /** How it ends: a bad root is refused before anything is asked for. */
  ghost predicate Ends(p: Problem, r: SolveResult, goal: Outcome, asked: set<string>, s: Supply, before: set<string>)
    reads Objects(s)
  {
    if BadRoot(Canonical(p)) then r == Denied(SourceRejected) && HasAsked(s, before, {})
    else r == Listed(goal) && HasAsked(s, before, asked)
  }

  /** One turn, seen from the main loop. */
  method Proceed(p: Problem, constraints: map<string, seq<Requirement>>, supply: Supply, ghost offers: Offers,
      ghost roster: set<string>, stack: seq<Frame>, ghost goal: Outcome, ghost asked: set<string>,
      ghost before: set<string>) returns (answer: Option<SolveResult>, stack': seq<Frame>)
    requires ClausesKeepMeaning(p.pkg) && GroupsConstraints(p, constraints) && Serves(supply, p.pkg)
    requires Bounded(offers, roster) && offers == OffersOf(supply, p.pkg)
    requires stack != [] && Runs(p, offers, roster, stack, goal, asked, supply, before)
    modifies Objects(supply)
    ensures Serves(supply, p.pkg)
    ensures answer.Some? ==> Ends(p, answer.value, goal, asked, supply, before)
    ensures answer.None? ==>
              && Runs(p, offers, roster, stack', goal, asked, supply, before)
              && StackWork(p, offers, roster, stack') < StackWork(p, offers, roster, stack)
  {
    answer, stack' := Turn(p, constraints, supply, offers, roster, stack);
    if supply.Live? && !BadRoot(Canonical(p)) {
      ghost var rest := if answer.None? then StackAsked(p, offers, roster, stack') else {};
      UnderwayNext(before, asked, old(Seen(supply)), StackAsked(p, offers, roster, stack), Seen(supply), rest);
      UnderwayLast(before, asked, Seen(supply), rest);
    }
  }

  lemma StartStack(p: Problem, offers: Offers, roster: set<string>)
    requires Bounded(offers, roster)
    ensures StackOk(p, roster, [Start])
    ensures Resume(p, offers, roster, [Start]) == Explore(Canonical(p), offers, roster, map[])
    ensures StackAsked(p, offers, roster, [Start]) == Asked(Canonical(p), offers, roster, map[])
  {
    var stack := [Start];
    assert stack[..|stack| - 1] == [];
    assert FrameOutcome(p, offers, roster, Start) == Explore(Canonical(p), offers, roster, map[]);
    assert FrameAsked(p, offers, roster, Start) == Asked(Canonical(p), offers, roster, map[]);
  }

  lemma StartRuns(p: Problem, offers: Offers, roster: set<string>, supply: Supply)
    requires Bounded(offers, roster)
    ensures Runs(p, offers, roster, [Start], Explore(Canonical(p), offers, roster, map[]),
                 Asked(Canonical(p), offers, roster, map[]), supply, Seen(supply))
  {
    StartStack(p, offers, roster);
    UnderwayFirst(Seen(supply), Asked(Canonical(p), offers, roster, map[]));
  }

  /** The main loop: it ends because every turn lowers `StackWork`, and answers as the recursive search does. */
  method Run(p: Problem, constraints: map<string, seq<Requirement>>, supply: Supply, ghost offers: Offers,
      ghost roster: set<string>) returns (r: SolveResult)
    requires ClausesKeepMeaning(p.pkg) && GroupsConstraints(p, constraints) && Serves(supply, p.pkg)
    requires Bounded(offers, roster) && offers == OffersOf(supply, p.pkg)
    modifies Objects(supply)
    ensures Serves(supply, p.pkg)
    ensures Ends(p, r, Explore(Canonical(p), offers, roster, map[]), Asked(Canonical(p), offers, roster, map[]),
                 supply, old(Seen(supply)))
  {
    var stack := [Start];
    ghost var goal, asked := Explore(Canonical(p), offers, roster, map[]), Asked(Canonical(p), offers, roster, map[]);
    StartRuns(p, offers, roster, supply);
    while stack != []
      invariant Serves(supply, p.pkg) && Runs(p, offers, roster, stack, goal, asked, supply, old(Seen(supply)))
      decreases StackWork(p, offers, roster, stack)
    {
      var answer, next := Proceed(p, constraints, supply, offers, roster, stack, goal, asked, old(Seen(supply)));
      if answer.Some? {
        return answer.value;
      }
      stack := next;
    }
    return NoRoster;
  }

  /** What the search asks for: nothing, if the declarations are refused before. */
  ghost function Questions(p: Problem, supply: Supply): set<string> {
    if !SafeDeclarations(p) || Malformed(Canonical(p)) then {}
    else Asked(Canonical(p), OffersOf(supply, p.pkg), RosterOf(supply), map[])
  }

  /**
   The iterator-stack search: the answer of the recursive search for the canonical declarations over
   all that the supply can be asked for, and the registry was asked for exactly what that answer needs.
   */
  method Solve(p: Problem, supply: Supply) returns (r: SolveResult)
    requires ClausesKeepMeaning(p.pkg) && Serves(supply, p.pkg)
    modifies Objects(supply)
    ensures Serves(supply, p.pkg)
    ensures SafeDeclarations(p) ==> r == Listed(Answer(Canonical(p), OffersOf(supply, p.pkg), RosterOf(supply)))
    ensures !SafeDeclarations(p) ==> r == Denied(SourceRejected)
    ensures HasAsked(supply, old(Seen(supply)), Questions(p, supply))
  {
    if exists root <- p.roots :: !p.pkg.safe(root) {
      return Denied(SourceRejected);
    }
    var grouped := GroupConstraints(p);
    if grouped.None? {
      return Denied(SourceRejected);
    }
    r := Run(p, grouped.value, supply, OffersOf(supply, p.pkg), RosterOf(supply));
  }
}
