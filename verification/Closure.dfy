/**
 What `closure` computes: the requirements and extras that a selection of wheels
 makes necessary, as a least fixed point over canonical keys.
 */
module Closure {
  import opened Text
  import opened Requirements

  type Selection = map<string, Wheel>

  /** A requirement to be considered under one enabled extra ("" for none). */
  datatype Item = Item(key: Key, extra: string)

  ghost function ItemVerdict(q: Query, i: Item): Verdict {
    MarkerVerdict(q.pkg, i.key.marker, i.extra)
  }

  ghost predicate Active(q: Query, i: Item) {
    ItemVerdict(q, i) == Applies
  }

  ghost function DependencyKeys(q: Query, w: Wheel): set<Key> {
    KeysOf(q.pkg, w.requirements)
  }

  ghost predicate Rooted(q: Query, j: Item) {
    j.key in q.roots && j.extra == ""
  }

  /** Considering `i` puts `j` on the worklist: the wheel chosen for `i` depends on `j`. */
  ghost predicate Pulls(q: Query, sel: Selection, i: Item, j: Item) {
    && Active(q, i)
    && i.key.name in sel
    && (j.extra == "" || j.extra in i.key.extras)
    && j.key in DependencyKeys(q, sel[i.key.name])
  }

  ghost predicate Closed(q: Query, sel: Selection, items: set<Item>) {
    && (forall j :: Rooted(q, j) ==> j in items)
    && (forall i, j :: i in items && Pulls(q, sel, i, j) ==> j in items)
  }

  ghost function MentionedKeys(q: Query, sel: Selection): set<Key> {
    q.roots + set n, k | n in sel && k in DependencyKeys(q, sel[n]) :: k
  }

  ghost function MentionedExtras(q: Query, sel: Selection): set<string> {
    {""} + set k, e | k in MentionedKeys(q, sel) && e in k.extras :: e
  }

  ghost function Universe(q: Query, sel: Selection): set<Item> {
    set k, e | k in MentionedKeys(q, sel) && e in MentionedExtras(q, sel) :: Item(k, e)
  }

  /** The least closed set of items. */
  ghost function Reach(q: Query, sel: Selection): set<Item> {
    set i | i in Universe(q, sel) && forall items | Closed(q, sel, items) :: i in items
  }

  lemma UniverseClosed(q: Query, sel: Selection)
    ensures Closed(q, sel, Universe(q, sel))
  {
    forall i, j | i in Universe(q, sel) && Pulls(q, sel, i, j)
      ensures j in Universe(q, sel)
    {
      assert j.key in MentionedKeys(q, sel);
      assert j.extra in MentionedExtras(q, sel);
    }
  }

  /** `Reach` is closed, and included in every closed set. */
  lemma ReachIsLeast(q: Query, sel: Selection)
    ensures Closed(q, sel, Reach(q, sel))
    ensures forall items | Closed(q, sel, items) :: Reach(q, sel) <= items
  {
    UniverseClosed(q, sel);
    forall j | Rooted(q, j)
      ensures j in Reach(q, sel)
    {}
    forall i, j | i in Reach(q, sel) && Pulls(q, sel, i, j)
      ensures j in Reach(q, sel)
    {
      forall items | Closed(q, sel, items)
        ensures j in items
      {
        assert i in items;
      }
    }
  }

  lemma ReachUnique(q: Query, sel: Selection, items: set<Item>)
    requires Closed(q, sel, items) && items <= Reach(q, sel)
    ensures items == Reach(q, sel)
  {
    ReachIsLeast(q, sel);
  }

  ghost predicate Extends(small: Selection, large: Selection) {
    forall n :: n in small ==> n in large && large[n] == small[n]
  }

  /** Selecting more wheels never removes a need. */
  lemma ReachMonotone(q: Query, small: Selection, large: Selection)
    requires Extends(small, large)
    ensures Reach(q, small) <= Reach(q, large)
  {
    ReachIsLeast(q, small);
    ReachIsLeast(q, large);
    var items := Reach(q, large);
    forall i, j | i in items && Pulls(q, small, i, j)
      ensures j in items
    {
      assert Pulls(q, large, i, j);
    }
    assert Closed(q, small, items);
  }

  /** If everything needed is already selected, selecting more adds no need. */
  lemma ReachSaturated(q: Query, small: Selection, large: Selection)
    requires Extends(small, large)
    requires NeededNames(q, small) <= small.Keys
    ensures Reach(q, small) == Reach(q, large)
  {
    ReachIsLeast(q, small);
    ReachIsLeast(q, large);
    ReachMonotone(q, small, large);
    var items := Reach(q, small);
    forall i, j | i in items && Pulls(q, large, i, j)
      ensures j in items
    {
      assert i.key.name in NeededNames(q, small);
      assert Pulls(q, small, i, j);
    }
    assert Closed(q, large, items);
  }

  ghost function NamesIn(q: Query, items: set<Item>): set<string> {
    set i | i in items && Active(q, i) :: i.key.name
  }

  ghost function KeysFor(q: Query, items: set<Item>, name: string): set<Key> {
    set i | i in items && Active(q, i) && i.key.name == name :: i.key
  }

  ghost function NeededNames(q: Query, sel: Selection): set<string> {
    NamesIn(q, Reach(q, sel))
  }

  ghost function Needed(q: Query, sel: Selection, name: string): set<Key> {
    KeysFor(q, Reach(q, sel), name)
  }

  ghost function ExtrasOf(keys: set<Key>): set<string> {
    set k, e | k in keys && e in k.extras :: e
  }

  ghost function ConstraintsOn(q: Query, name: string): set<Key> {
    set k | k in q.constraints && MarkerVerdict(q.pkg, k.marker, "") == Applies && k.name == name
  }

  ghost predicate Satisfies(q: Query, version: string, keys: set<Key>) {
    forall k <- keys :: Matches(q.pkg, k.specifier, version)
  }

  /** The `accepts` test on canonical keys. */
  ghost predicate Accepts(q: Query, w: Wheel, keys: set<Key>, extras: set<string>) {
    && extras <= w.extras
    && (w.name in q.hashes && q.hashes[w.name] != {} ==> w.sha256 in q.hashes[w.name])
    && (q.allowed.Some? ==> w.artifact in q.allowed.value)
    && w.tags * q.tags != {}
    && Matches(q.pkg, w.requiresPython, q.interpreter)
    && Satisfies(q, w.version, keys + ConstraintsOn(q, w.name))
  }

  lemma AcceptsAntitone(q: Query, w: Wheel, keys: set<Key>, more: set<Key>)
    requires keys <= more
    requires Accepts(q, w, more, ExtrasOf(more))
    ensures Accepts(q, w, keys, ExtrasOf(keys))
  {
    assert ExtrasOf(keys) <= ExtrasOf(more);
  }

  /** Some root requirement's own marker cannot be evaluated. */
  ghost predicate BadRoot(q: Query) {
    exists k <- q.roots :: MarkerVerdict(q.pkg, k.marker, "") == Unevaluable
  }

  ghost predicate BadConstraint(q: Query) {
    exists k <- q.constraints :: MarkerVerdict(q.pkg, k.marker, "") == Unevaluable
  }

  /** A dependency marker that cannot be evaluated, or a selected wheel refused by what is needed of it. */
  ghost predicate Conflict(q: Query, sel: Selection) {
    || (exists i <- Reach(q, sel) :: ItemVerdict(q, i) == Unevaluable)
    || (exists n <- sel :: n in NeededNames(q, sel) && Refused(q, sel, n))
  }

  ghost predicate Refused(q: Query, sel: Selection, n: string)
    requires n in sel
  {
    !Accepts(q, sel[n], Needed(q, sel, n), ExtrasOf(Needed(q, sel, n)))
  }

  /** Pruning is safe: a conflict survives every extension of the selection. */
  lemma ConflictPersists(q: Query, small: Selection, large: Selection)
    requires Extends(small, large)
    requires Conflict(q, small)
    ensures Conflict(q, large)
  {
    ReachMonotone(q, small, large);
    if i :| i in Reach(q, small) && ItemVerdict(q, i) == Unevaluable {
      assert i in Reach(q, large);
    } else {
      var n :| n in small && n in NeededNames(q, small) && Refused(q, small, n);
      NeededMonotone(q, small, large, n);
      if !Refused(q, large, n) {
        AcceptsAntitone(q, small[n], Needed(q, small, n), Needed(q, large, n));
      }
    }
  }

  lemma NeededMonotone(q: Query, small: Selection, large: Selection, n: string)
    requires Extends(small, large)
    ensures Needed(q, small, n) <= Needed(q, large, n)
    ensures NeededNames(q, small) <= NeededNames(q, large)
  {
    ReachMonotone(q, small, large);
    forall k <- Needed(q, small, n)
      ensures k in Needed(q, large, n)
    {
      var i :| i in Reach(q, small) && Active(q, i) && i.key.name == n && i.key == k;
      assert i in Reach(q, large);
    }
  }
}
