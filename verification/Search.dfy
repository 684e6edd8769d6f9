/**
 The depth-first search of the solver as a recursive function on selections, and what its
 answer means: sound, complete, first in preference order, and reproduced by replaying it.
 */
module Search {
  import opened Text
  import opened Requirements
  import opened Closure

  datatype Error = SourceRejected | PolicyRejected | Unavailable

  datatype Outcome = Solved(selection: Selection) | NoClosure | Failed(error: Error)

  /** What an iterator of wheels yields, and the exception it ends with, if it does. */
  datatype Stream = Stream(wheels: seq<Wheel>, failure: Option<Error>)

  /** A provider of wheels, given the demands on one name, a hash restriction and the prerelease preference. */
  type Offers = (string, set<Key>, Option<set<string>>, bool) -> Stream

  /** The provider as the solver calls it: the demands are a list of requirements. */
  type Options = (string, seq<Requirement>, Option<set<string>>, bool) -> Stream

  /** The provider reads its requirements only through their keys. */
  ghost predicate Reflects(pkg: Packaging, options: Options, offers: Offers) {
    forall n, rs, hashes, pre :: options(n, rs, hashes, pre) == offers(n, KeysOf(pkg, rs), hashes, pre)
  }

  /** What the policy adds to the demands on a name, and the hashes it lets the provider use. */
  datatype Terms = Terms(keys: set<Key>, hashes: Option<set<string>>)

  function PinRequirement(name: string, pin: Pin): Requirement {
    Requirement(name, {}, {Clause("==", pin.version)}, "")
  }

  function Restriction(hashes: map<string, set<string>>, name: string): Option<set<string>> {
    if name in hashes then Some(hashes[name]) else None
  }

  /** The declared hashes narrowed to the baseline pin; declaring none, or an empty set, leaves the pin alone. */
  function PinnedHashes(declared: Option<set<string>>, pin: Pin): set<string> {
    if declared.None? || declared.value == {} then {pin.sha256} else declared.value * {pin.sha256}
  }

  function TermsFor(q: Query, name: string): Option<Terms> {
    var declared := Restriction(q.hashes, name);
    if !q.forbidden then Some(Terms({}, declared))
    else
      if name !in q.pins || PinnedHashes(declared, q.pins[name]) == {} then None
      else Some(Terms({KeyOf(q.pkg, PinRequirement(name, q.pins[name]))}, Some(PinnedHashes(declared, q.pins[name]))))
  }

  ghost function Demand(q: Query, sel: Selection, name: string, terms: Terms): set<Key> {
    Needed(q, sel, name) + ConstraintsOn(q, name) + terms.keys
  }

  ghost predicate PreferPrereleases(q: Query, keys: set<Key>) {
    exists k <- keys :: Prereleases(q.pkg, k.specifier)
  }

  ghost function OfferedFor(q: Query, offers: Offers, sel: Selection, name: string): Stream {
    match TermsFor(q, name)
    case None => Stream([], None)
    case Some(terms) =>
      var keys := Demand(q, sel, name, terms);
      offers(name, keys, terms.hashes, PreferPrereleases(q, keys))
  }

  predicate SafeWheel(pkg: Packaging, w: Wheel) {
    forall r <- w.requirements :: pkg.safe(r)
  }

  function Weight(w: Wheel, disk: bool): nat {
    if disk then w.expandedSize else w.size
  }

  ghost function Total(sel: Selection, disk: bool): nat {
    if sel == map[] then 0
    else
      var n := Least(sel.Keys);
      Weight(sel[n], disk) + Total(sel - {n}, disk)
  }

  ghost predicate Fits(q: Query, sel: Selection) {
    Total(sel, false) <= q.maxBytes && Total(sel, true) <= q.maxDisk
  }

  /** The wheel passes every filter of `extend`, so the search tries it. */
  ghost predicate Admitted(q: Query, sel: Selection, name: string, w: Wheel) {
    && TermsFor(q, name).Some?
    && SafeWheel(q.pkg, w)
    && Accepts(q, w, Demand(q, sel, name, TermsFor(q, name).value), ExtrasOf(Needed(q, sel, name)))
    && Fits(q, sel[name := w])
  }

  /** Only names in the roster have wheels; a page of a registry is finite. */
  ghost predicate Bounded(offers: Offers, roster: set<string>) {
    forall n, keys, hashes, pre :: n !in roster ==> offers(n, keys, hashes, pre).wheels == []
  }

  /** An iterator that does not raise, and yields wheels of the name asked for. */
  ghost predicate Clean(s: Stream, n: string) {
    s.failure.None? && forall w <- s.wheels :: w.name == n
  }

  ghost predicate Honest(offers: Offers) {
    forall n, keys, hashes, pre :: Clean(offers(n, keys, hashes, pre), n)
  }

  ghost function Missing(q: Query, sel: Selection): set<string> {
    NeededNames(q, sel) - sel.Keys
  }

  ghost function Explore(q: Query, offers: Offers, roster: set<string>, sel: Selection): Outcome
    requires Bounded(offers, roster)
    decreases roster - sel.Keys, 1, 0
  {
    if Conflict(q, sel) then NoClosure
    else if Missing(q, sel) == {} then Solved(sel)
    else
      var name := Least(Missing(q, sel));
      Try(q, offers, roster, sel, name, OfferedFor(q, offers, sel, name))
  }

  /** How an exhausted iterator ends. */
  function Ending(failure: Option<Error>): Outcome {
    if failure.Some? then Failed(failure.value) else NoClosure
  }

  function Rest(s: Stream): Stream
    requires s.wheels != []
  {
    Stream(s.wheels[1..], s.failure)
  }

  ghost function Try(q: Query, offers: Offers, roster: set<string>, sel: Selection, name: string, s: Stream): Outcome
    requires Bounded(offers, roster)
    requires name !in sel && (s.wheels == [] || name in roster)
    decreases roster - sel.Keys, 0, |s.wheels|
  {
    var ws := s.wheels;
    if ws == [] then Ending(s.failure)
    else if ws[0].name != name then Failed(PolicyRejected)
    else if !Admitted(q, sel, name, ws[0]) then Try(q, offers, roster, sel, name, Rest(s))
    else
      assert roster - sel[name := ws[0]].Keys < roster - sel.Keys by {
        assert name in roster - sel.Keys;
      }
      var r := Explore(q, offers, roster, sel[name := ws[0]]);
      if r.NoClosure? then Try(q, offers, roster, sel, name, Rest(s)) else r
  }

  // ---------- sizes ----------

  lemma {:induction false} TotalRemove(sel: Selection, n: string, disk: bool)
    requires n in sel
    ensures Total(sel, disk) == Weight(sel[n], disk) + Total(sel - {n}, disk)
  {
    var m := Least(sel.Keys);
    if m != n {
      TotalRemove(sel - {m}, n, disk);
      TotalRemove(sel - {n}, m, disk);
      assert sel - {m} - {n} == sel - {n} - {m};
    }
  }

  lemma TotalInsert(sel: Selection, n: string, w: Wheel, disk: bool)
    requires n !in sel
    ensures Total(sel[n := w], disk) == Weight(w, disk) + Total(sel, disk)
  {
    TotalRemove(sel[n := w], n, disk);
    assert sel[n := w] - {n} == sel;
  }

  lemma {:induction false} TotalMonotone(small: Selection, large: Selection, disk: bool)
    requires Extends(small, large)
    ensures Total(small, disk) <= Total(large, disk)
    decreases |small|
  {
    if small == map[] {
    } else {
      var n := Least(small.Keys);
      TotalRemove(large, n, disk);
      TotalMonotone(small - {n}, large - {n}, disk);
    }
  }

  // ---------- meaning of an answer ----------

  /** The policy lets wheel `w` stand for `name`. */
  ghost predicate Permitted(q: Query, name: string, w: Wheel) {
    && w.name == name
    && SafeWheel(q.pkg, w)
    && TermsFor(q, name).Some?
    && Satisfies(q, w.version, TermsFor(q, name).value.keys)
  }

  /**
   A complete dependency closure, stated without reference to any search: nothing needed is
   missing, nothing selected is superfluous, every wheel is accepted under everything needed
   of it, and the byte and disk caps hold.
   */
  ghost predicate Acceptable(q: Query, sel: Selection) {
    && !Conflict(q, sel)
    && NeededNames(q, sel) == sel.Keys
    && (forall n <- sel :: Permitted(q, n, sel[n]))
    && Fits(q, sel)
  }

  /** The provider offers each wheel of `sel` whenever it satisfies the demands. */
  ghost predicate CanSupply(q: Query, offers: Offers, sel: Selection) {
    forall n, keys, pre | n in sel && TermsFor(q, n).Some? && Satisfies(q, sel[n].version, keys) ::
      sel[n] in offers(n, keys, TermsFor(q, n).value.hashes, pre).wheels
  }

  ghost predicate Supplied(offers: Offers, n: string, w: Wheel) {
    exists keys, hashes, pre :: w in offers(n, keys, hashes, pre).wheels
  }

  /** What every selection on a search path satisfies. */
  ghost predicate OnPath(q: Query, offers: Offers, sel: Selection) {
    && sel.Keys <= NeededNames(q, sel)
    && (forall n <- sel :: Permitted(q, n, sel[n]) && Supplied(offers, n, sel[n]))
    && Fits(q, sel)
  }

  lemma EmptyOnPath(q: Query, offers: Offers)
    ensures OnPath(q, offers, map[])
  {}

  /** Demanding the keys of the policy too, an admitted wheel is permitted. */
  lemma AdmittedIsPermitted(q: Query, sel: Selection, n: string, w: Wheel)
    requires w.name == n && Admitted(q, sel, n, w)
    ensures Permitted(q, n, w)
  {
    var terms := TermsFor(q, n).value;
    assert terms.keys <= Demand(q, sel, n, terms) + ConstraintsOn(q, w.name);
  }

  lemma StepOnPath(q: Query, offers: Offers, sel: Selection, w: Wheel)
    requires OnPath(q, offers, sel) && Missing(q, sel) != {}
    requires var n := Least(Missing(q, sel));
             w in OfferedFor(q, offers, sel, n).wheels && w.name == n && Admitted(q, sel, n, w)
    ensures OnPath(q, offers, sel[Least(Missing(q, sel)) := w])
  {
    var n := Least(Missing(q, sel));
    var next := sel[n := w];
    NeededMonotone(q, sel, next, n);
    AdmittedIsPermitted(q, sel, n, w);
    OfferedIsSupplied(q, offers, sel, n, w);
    assert next.Keys <= NeededNames(q, next);
  }

  lemma OfferedIsSupplied(q: Query, offers: Offers, sel: Selection, n: string, w: Wheel)
    requires w in OfferedFor(q, offers, sel, n).wheels
    ensures Supplied(offers, n, w)
  {}

  /** `r`, if it is an answer, ends a search path without conflict and with nothing missing. */
  ghost predicate EndsPath(q: Query, offers: Offers, r: Outcome) {
    r.Solved? ==> OnPath(q, offers, r.selection) && !Conflict(q, r.selection) && Missing(q, r.selection) == {}
  }

  lemma {:induction false} ExploreSound(q: Query, offers: Offers, roster: set<string>, sel: Selection)
    requires Bounded(offers, roster) && OnPath(q, offers, sel)
    ensures EndsPath(q, offers, Explore(q, offers, roster, sel))
    decreases roster - sel.Keys, 1, 0
  {
    if Conflict(q, sel) || Missing(q, sel) == {} {
      assert Explore(q, offers, roster, sel) == if Conflict(q, sel) then NoClosure else Solved(sel);
    } else {
      var n := Least(Missing(q, sel));
      TrySound(q, offers, roster, sel, n, OfferedFor(q, offers, sel, n));
    }
  }

  lemma {:induction false} TrySound(q: Query, offers: Offers, roster: set<string>, sel: Selection, n: string, s: Stream)
    requires Bounded(offers, roster) && OnPath(q, offers, sel)
    requires Missing(q, sel) != {} && n == Least(Missing(q, sel))
    requires s.wheels == [] || n in roster
    requires forall w <- s.wheels :: w in OfferedFor(q, offers, sel, n).wheels
    ensures EndsPath(q, offers, Try(q, offers, roster, sel, n, s))
    decreases roster - sel.Keys, 0, |s.wheels|
  {
    if s.wheels == [] {
      assert Try(q, offers, roster, sel, n, s) == Ending(s.failure);
    } else {
      var w := s.wheels[0];
      if w.name == n {
        TailStays(s.wheels);
        TrySound(q, offers, roster, sel, n, Rest(s));
        if Admitted(q, sel, n, w) {
          assert OnPath(q, offers, sel[n := w]) by {
            StepOnPath(q, offers, sel, w);
          }
          assert n in roster - sel.Keys;
          ExploreSound(q, offers, roster, sel[n := w]);
        }
      }
    }
  }

  lemma TailStays<T>(s: seq<T>)
    requires s != []
    ensures forall x <- s[1..] :: x in s
  {}

  /** An honest provider causes no failure. */
  lemma {:induction false} ExploreEnds(q: Query, offers: Offers, roster: set<string>, sel: Selection)
    requires Bounded(offers, roster) && Honest(offers)
    ensures !Explore(q, offers, roster, sel).Failed?
    decreases roster - sel.Keys, 1, 0
  {
    if !Conflict(q, sel) && Missing(q, sel) != {} {
      var n := Least(Missing(q, sel));
      TryEnds(q, offers, roster, sel, n, OfferedFor(q, offers, sel, n));
    }
  }

  lemma {:induction false} TryEnds(q: Query, offers: Offers, roster: set<string>, sel: Selection, n: string, s: Stream)
    requires Bounded(offers, roster) && Honest(offers) && Clean(s, n)
    requires n !in sel && (s.wheels == [] || n in roster)
    ensures !Try(q, offers, roster, sel, n, s).Failed?
    decreases roster - sel.Keys, 0, |s.wheels|
  {
    if s.wheels == [] {
    } else {
      var w := s.wheels[0];
      assert w in s.wheels;
      TailStays(s.wheels);
      TryEnds(q, offers, roster, sel, n, Rest(s));
      if Admitted(q, sel, n, w) {
        assert n in roster - sel.Keys;
        ExploreEnds(q, offers, roster, sel[n := w]);
      }
    }
  }

  lemma EndIsAcceptable(q: Query, offers: Offers, sel: Selection)
    requires EndsPath(q, offers, Solved(sel))
    ensures Acceptable(q, sel)
  {
    assert forall n <- NeededNames(q, sel) :: n in Missing(q, sel) || n in sel;
    assert NeededNames(q, sel) == sel.Keys;
  }

  // ---------- completeness and preference ----------

  /** `a` comes strictly before every occurrence of `b`. */
  ghost predicate Earlier(ws: seq<Wheel>, a: Wheel, b: Wheel) {
    exists i | 0 <= i < |ws| :: ws[i] == a && b !in ws[..i + 1]
  }

  /**
   From `sel` on, answer `s` is preferred to `t`: at the first name where they choose
   different wheels, the wheel of `s` is offered earlier than the wheel of `t`.
   */
  ghost predicate Prefers(q: Query, offers: Offers, roster: set<string>, sel: Selection, s: Selection, t: Selection)
    decreases roster - sel.Keys
  {
    Missing(q, sel) == {} ||
    var n := Least(Missing(q, sel));
    && n in s && n in t && n in roster - sel.Keys
    && if s[n] == t[n]
       then Prefers(q, offers, roster, sel[n := s[n]], s, t)
       else Earlier(OfferedFor(q, offers, sel, n).wheels, s[n], t[n])
  }

  /** The next wheel of an acceptable selection meets what is demanded of it so far. */
  lemma NextIsAccepted(q: Query, sel: Selection, t: Selection, n: string)
    requires Acceptable(q, t) && Extends(sel, t) && n in Missing(q, sel)
    ensures n in t && Permitted(q, n, t[n])
    ensures Accepts(q, t[n], Demand(q, sel, n, TermsFor(q, n).value), ExtrasOf(Needed(q, sel, n)))
  {
    NeededMonotone(q, sel, t, n);
    assert Permitted(q, n, t[n]);
    assert !Refused(q, t, n);
    AcceptsAntitone(q, t[n], Needed(q, sel, n), Needed(q, t, n));
  }

  lemma NextFits(q: Query, sel: Selection, t: Selection, n: string)
    requires Fits(q, t) && Extends(sel, t) && n in t
    ensures Fits(q, sel[n := t[n]])
  {
    assert Extends(sel[n := t[n]], t);
    TotalMonotone(sel[n := t[n]], t, false);
    TotalMonotone(sel[n := t[n]], t, true);
  }

  lemma NextIsOffered(q: Query, offers: Offers, sel: Selection, t: Selection, n: string)
    requires CanSupply(q, offers, t) && n in t && TermsFor(q, n).Some?
    requires Satisfies(q, t[n].version, Demand(q, sel, n, TermsFor(q, n).value))
    ensures t[n] in OfferedFor(q, offers, sel, n).wheels
  {}

  /** Along the way to an acceptable selection, nothing conflicts and its next wheel is offered and admitted. */
  lemma NextIsAdmitted(q: Query, offers: Offers, sel: Selection, t: Selection)
    requires Acceptable(q, t) && CanSupply(q, offers, t) && Extends(sel, t)
    ensures !Conflict(q, sel)
    ensures Missing(q, sel) != {} ==>
              var n := Least(Missing(q, sel));
              n in t && t[n].name == n && Admitted(q, sel, n, t[n]) && t[n] in OfferedFor(q, offers, sel, n).wheels
  {
    if Conflict(q, sel) {
      ConflictPersists(q, sel, t);
      assert false;
    }
    if Missing(q, sel) != {} {
      var n := Least(Missing(q, sel));
      NextIsAccepted(q, sel, t, n);
      NextIsOffered(q, offers, sel, t, n);
      NextFits(q, sel, t, n);
    }
  }

  /** An outcome reached from `sel` that does at least as well as the acceptable selection `t`. */
  ghost predicate AsGoodAs(q: Query, offers: Offers, roster: set<string>, sel: Selection, r: Outcome, t: Selection) {
    !r.NoClosure? && (r.Solved? ==> Extends(sel, r.selection) && Prefers(q, offers, roster, sel, r.selection, t))
  }

  lemma AgreesOnNext(q: Query, offers: Offers, roster: set<string>, sel: Selection, r: Outcome, t: Selection)
    requires Missing(q, sel) != {} && Least(Missing(q, sel)) in t && Least(Missing(q, sel)) in roster
    requires var n := Least(Missing(q, sel)); AsGoodAs(q, offers, roster, sel[n := t[n]], r, t)
    ensures AsGoodAs(q, offers, roster, sel, r, t)
  {
    var n := Least(Missing(q, sel));
    assert n in sel[n := t[n]];
  }

  lemma BeatsOnNext(q: Query, offers: Offers, roster: set<string>, sel: Selection, w: Wheel, r: Outcome, t: Selection)
    requires Missing(q, sel) != {} && Least(Missing(q, sel)) in t && Least(Missing(q, sel)) in roster
    requires r.Solved?
    requires var n := Least(Missing(q, sel));
             w != t[n] && Extends(sel[n := w], r.selection) && Earlier(OfferedFor(q, offers, sel, n).wheels, w, t[n])
    ensures AsGoodAs(q, offers, roster, sel, r, t)
  {
    var n := Least(Missing(q, sel));
    assert n in sel[n := w];
  }

  lemma OfferedInRoster(q: Query, offers: Offers, roster: set<string>, sel: Selection, n: string, w: Wheel)
    requires Bounded(offers, roster) && w in OfferedFor(q, offers, sel, n).wheels
    ensures n in roster
  {}

  /** At `sel` the search can go on towards `t`: nothing conflicts; the next wheel of `t` is offered and admitted. */
  ghost predicate Ready(q: Query, offers: Offers, roster: set<string>, sel: Selection, t: Selection) {
    && !Conflict(q, sel)
    && (Missing(q, sel) != {} ==>
          var n := Least(Missing(q, sel));
          && n in t && n in roster - sel.Keys
          && t[n].name == n && Admitted(q, sel, n, t[n]) && t[n] in OfferedFor(q, offers, sel, n).wheels)
  }

  lemma AcceptableIsReady(q: Query, offers: Offers, roster: set<string>, t: Selection)
    requires Bounded(offers, roster)
    requires Acceptable(q, t) && CanSupply(q, offers, t)
    ensures forall sel | Extends(sel, t) :: Ready(q, offers, roster, sel, t)
  {
    forall sel | Extends(sel, t)
      ensures Ready(q, offers, roster, sel, t)
    {
      NextIsAdmitted(q, offers, sel, t);
      if Missing(q, sel) != {} {
        var n := Least(Missing(q, sel));
        OfferedInRoster(q, offers, roster, sel, n, t[n]);
      }
    }
  }

  lemma {:induction false} ExploreComplete(q: Query, offers: Offers, roster: set<string>, sel: Selection, t: Selection)
    requires Bounded(offers, roster) && Extends(sel, t)
    requires forall s | Extends(s, t) :: Ready(q, offers, roster, s, t)
    ensures AsGoodAs(q, offers, roster, sel, Explore(q, offers, roster, sel), t)
    decreases roster - sel.Keys
  {
    assert Ready(q, offers, roster, sel, t);
    if Missing(q, sel) != {} {
      var n := Least(Missing(q, sel));
      ExploreComplete(q, offers, roster, sel[n := t[n]], t);
      var all := OfferedFor(q, offers, sel, n);
      var at := FirstOccurrence(all.wheels, t[n]);
      PickTarget(q, offers, roster, sel, n, t, From(all, at));
      TryComplete(q, offers, roster, sel, n, t, all, 0, at);
      assert From(all, 0) == all;
    }
  }

  /** The iterator after its first `i` wheels. */
  function From(s: Stream, i: nat): Stream
    requires i <= |s.wheels|
  {
    Stream(s.wheels[i..], s.failure)
  }

  lemma {:induction false} FirstOccurrence(ws: seq<Wheel>, w: Wheel) returns (at: nat)
    requires w in ws
    ensures at < |ws| && ws[at] == w && w !in ws[..at]
  {
    if ws[0] == w {
      at := 0;
    } else {
      var rest := FirstOccurrence(ws[1..], w);
      at := rest + 1;
      assert ws[..at] == [ws[0]] + ws[1..][..rest];
    }
  }

  /** Offers before the wheel of `t`, taken from the back: trying them does not lose what is found at `at`. */
  lemma {:induction false} TryComplete(q: Query, offers: Offers, roster: set<string>, sel: Selection, n: string,
      t: Selection, all: Stream, i: nat, at: nat)
    requires Bounded(offers, roster)
    requires Missing(q, sel) != {} && n == Least(Missing(q, sel)) && n in t && n in roster
    requires all == OfferedFor(q, offers, sel, n)
    requires i <= at < |all.wheels| && t[n] !in all.wheels[..at]
    requires AsGoodAs(q, offers, roster, sel, Try(q, offers, roster, sel, n, From(all, at)), t)
    ensures AsGoodAs(q, offers, roster, sel, Try(q, offers, roster, sel, n, From(all, i)), t)
    decreases at - i
  {
    if i < at {
      TryComplete(q, offers, roster, sel, n, t, all, i + 1, at);
      NotYet(all.wheels, t[n], i, at);
      PickOrPass(q, offers, roster, sel, n, t, all, i);
    }
  }

  lemma NotYet(ws: seq<Wheel>, w: Wheel, i: nat, at: nat)
    requires i < at <= |ws| && w !in ws[..at]
    ensures w !in ws[..i + 1]
  {
    assert forall k | 0 <= k <= i :: ws[..i + 1][k] == ws[..at][k];
  }

  lemma PickTarget(q: Query, offers: Offers, roster: set<string>, sel: Selection, n: string, t: Selection, s: Stream)
    requires Bounded(offers, roster)
    requires Missing(q, sel) != {} && n == Least(Missing(q, sel)) && n in t && n in roster - sel.Keys
    requires s.wheels != [] && s.wheels[0] == t[n] && t[n].name == n && Admitted(q, sel, n, t[n])
    requires AsGoodAs(q, offers, roster, sel[n := t[n]], Explore(q, offers, roster, sel[n := t[n]]), t)
    ensures AsGoodAs(q, offers, roster, sel, Try(q, offers, roster, sel, n, s), t)
  {
    AgreesOnNext(q, offers, roster, sel, Explore(q, offers, roster, sel[n := t[n]]), t);
  }

  /** A wheel offered before that of `t` is either picked, beating `t`, or passed over. */
  lemma PickOrPass(q: Query, offers: Offers, roster: set<string>, sel: Selection, n: string,
      t: Selection, all: Stream, i: nat)
    requires Bounded(offers, roster)
    requires Missing(q, sel) != {} && n == Least(Missing(q, sel)) && n in roster && n in t
    requires all == OfferedFor(q, offers, sel, n)
    requires i < |all.wheels| && t[n] !in all.wheels[..i + 1]
    requires AsGoodAs(q, offers, roster, sel, Try(q, offers, roster, sel, n, From(all, i + 1)), t)
    ensures AsGoodAs(q, offers, roster, sel, Try(q, offers, roster, sel, n, From(all, i)), t)
  {
    var w := all.wheels[i];
    assert Rest(From(all, i)) == From(all, i + 1);
    assert all.wheels[..i + 1][i] == w;
    if w.name == n && Admitted(q, sel, n, w) {
      assert n in roster - sel.Keys;
      var r := Explore(q, offers, roster, sel[n := w]);
      if r.Solved? {
        ExploreExtends(q, offers, roster, sel[n := w]);
        BeatsOnNext(q, offers, roster, sel, w, r, t);
      }
    }
  }

  lemma {:induction false} ExploreExtends(q: Query, offers: Offers, roster: set<string>, sel: Selection)
    requires Bounded(offers, roster)
    ensures var r := Explore(q, offers, roster, sel); r.Solved? ==> Extends(sel, r.selection)
    decreases roster - sel.Keys, 1, 0
  {
    if !Conflict(q, sel) && Missing(q, sel) != {} {
      var n := Least(Missing(q, sel));
      TryExtends(q, offers, roster, sel, n, OfferedFor(q, offers, sel, n));
    }
  }

  lemma {:induction false} TryExtends(
    q: Query, offers: Offers, roster: set<string>, sel: Selection, n: string, s: Stream)
    requires Bounded(offers, roster)
    requires n !in sel && (s.wheels == [] || n in roster)
    ensures var r := Try(q, offers, roster, sel, n, s); r.Solved? ==> Extends(sel, r.selection)
    decreases roster - sel.Keys, 0, |s.wheels|
  {
    if s.wheels == [] {
    } else {
      var w := s.wheels[0];
      TryExtends(q, offers, roster, sel, n, Rest(s));
      if w.name == n && Admitted(q, sel, n, w) {
        assert n in roster - sel.Keys;
        ExploreExtends(q, offers, roster, sel[n := w]);
      }
    }
  }

  // ---------- the theorems about one call ----------

  /** The marker of a root requirement or of a constraint cannot be evaluated on the target. */
  ghost predicate Malformed(q: Query) {
    BadRoot(q) || BadConstraint(q)
  }

  /** The answer of `_solve` for declarations that are safe to read. */
  ghost function Answer(q: Query, offers: Offers, roster: set<string>): Outcome
    requires Bounded(offers, roster)
  {
    if Malformed(q) then Failed(SourceRejected) else Explore(q, offers, roster, map[])
  }

  /** Soundness and exactness. */
  lemma SolveIsSound(q: Query, offers: Offers, roster: set<string>)
    requires Bounded(offers, roster)
    ensures var r := Answer(q, offers, roster);
            r.Solved? ==> Acceptable(q, r.selection) && forall n <- r.selection :: Supplied(offers, n, r.selection[n])
    ensures Honest(offers) && !Malformed(q) ==> !Answer(q, offers, roster).Failed?
  {
    EmptyOnPath(q, offers);
    ExploreSound(q, offers, roster, map[]);
    if Honest(offers) {
      ExploreEnds(q, offers, roster, map[]);
    }
    var r := Answer(q, offers, roster);
    if r.Solved? {
      EndIsAcceptable(q, offers, r.selection);
    }
  }

  /** Completeness: every acceptable closure the provider can supply is found or beaten by an earlier one. */
  lemma SolveIsComplete(q: Query, offers: Offers, roster: set<string>, t: Selection)
    requires Bounded(offers, roster) && Honest(offers) && !Malformed(q)
    requires Acceptable(q, t) && CanSupply(q, offers, t)
    ensures var r := Answer(q, offers, roster);
            r.Solved? && Prefers(q, offers, roster, map[], r.selection, t)
  {
    SolveIsSound(q, offers, roster);
    AcceptableIsReady(q, offers, roster, t);
    ExploreComplete(q, offers, roster, map[], t);
  }

  /** An acceptable closure has no acceptable proper part: it is determined by its wheels. */
  lemma AcceptableIsExact(q: Query, small: Selection, large: Selection)
    requires Acceptable(q, small) && Acceptable(q, large) && Extends(small, large)
    ensures small == large
  {
    ReachSaturated(q, small, large);
    assert small.Keys == large.Keys;
  }

  lemma OnlyOneEarlier(ws: seq<Wheel>, a: Wheel, b: Wheel)
    requires Earlier(ws, a, b)
    ensures !Earlier(ws, b, a)
  {
    var i :| 0 <= i < |ws| && ws[i] == a && b !in ws[..i + 1];
    assert forall k | 0 <= k <= i :: ws[..i + 1][k] == ws[k];
    forall j | 0 <= j < |ws| && ws[j] == b
      ensures a in ws[..j + 1]
    {
      assert ws[..j + 1][i] == a;
    }
  }

  /** What preferring `s` to `t` from `sel` on says about the next name. */
  lemma PrefersStep(
    q: Query, offers: Offers, roster: set<string>, sel: Selection, n: string, s: Selection, t: Selection)
    requires Prefers(q, offers, roster, sel, s, t)
    requires Missing(q, sel) != {} && n == Least(Missing(q, sel))
    ensures n in s && n in t && n in roster - sel.Keys
    ensures s[n] == t[n] ==> Prefers(q, offers, roster, sel[n := s[n]], s, t)
    ensures s[n] != t[n] ==> Earlier(OfferedFor(q, offers, sel, n).wheels, s[n], t[n])
  {}

  lemma SaturatedIsAll(q: Query, sel: Selection, s: Selection)
    requires NeededNames(q, s) == s.Keys && Extends(sel, s) && Missing(q, sel) == {}
    ensures s == sel
  {
    assert forall n <- NeededNames(q, sel) :: n in Missing(q, sel) || n in sel;
    ReachSaturated(q, sel, s);
  }

  /** Selections preferred to each other agree until nothing is missing. */
  lemma {:induction false} MutualPreference(
    q: Query, offers: Offers, roster: set<string>, sel: Selection, s: Selection, t: Selection)
      returns (common: Selection)
    requires Extends(sel, s) && Extends(sel, t)
    requires Prefers(q, offers, roster, sel, s, t) && Prefers(q, offers, roster, sel, t, s)
    ensures Extends(common, s) && Extends(common, t) && Missing(q, common) == {}
    decreases roster - sel.Keys
  {
    if Missing(q, sel) == {} {
      common := sel;
    } else {
      var n := Least(Missing(q, sel));
      PrefersStep(q, offers, roster, sel, n, s, t);
      PrefersStep(q, offers, roster, sel, n, t, s);
      if s[n] != t[n] {
        OnlyOneEarlier(OfferedFor(q, offers, sel, n).wheels, s[n], t[n]);
        assert false;
      }
      common := MutualPreference(q, offers, roster, sel[n := s[n]], s, t);
    }
  }

  /** Two different closures cannot both be preferred: there is one first answer. */
  lemma PreferenceIsStrict(q: Query, offers: Offers, roster: set<string>, s: Selection, t: Selection)
    requires Acceptable(q, s) && Acceptable(q, t)
    requires Prefers(q, offers, roster, map[], s, t) && Prefers(q, offers, roster, map[], t, s)
    ensures s == t
  {
    var common := MutualPreference(q, offers, roster, map[], s, t);
    SaturatedIsAll(q, common, s);
    SaturatedIsAll(q, common, t);
  }

  // ---------- replaying a frozen roster ----------

  function RosterOffers(roster: Selection): Offers {
    (name, keys, hashes, pre) => Stream(if name in roster then [roster[name]] else [], None)
  }

  lemma RosterOffersProperties(q: Query, roster: Selection)
    requires forall n <- roster :: roster[n].name == n
    ensures Bounded(RosterOffers(roster), roster.Keys) && Honest(RosterOffers(roster))
    ensures CanSupply(q, RosterOffers(roster), roster)
  {}

  lemma SuppliedByRoster(roster: Selection, found: Selection)
    requires forall n <- found :: Supplied(RosterOffers(roster), n, found[n])
    ensures Extends(found, roster)
  {
    forall n <- found
      ensures n in roster && roster[n] == found[n]
    {
      var keys, hashes, pre :| found[n] in RosterOffers(roster)(n, keys, hashes, pre).wheels;
    }
  }

  lemma ReplayFinds(q: Query, roster: Selection)
    requires !Malformed(q) && Acceptable(q, roster)
    ensures Bounded(RosterOffers(roster), roster.Keys)
    ensures Answer(q, RosterOffers(roster), roster.Keys) == Solved(roster)
  {
    RosterOffersProperties(q, roster);
    SolveIsSound(q, RosterOffers(roster), roster.Keys);
    SolveIsComplete(q, RosterOffers(roster), roster.Keys, roster);
    var found := Answer(q, RosterOffers(roster), roster.Keys).selection;
    SuppliedByRoster(roster, found);
    AcceptableIsExact(q, found, roster);
  }

  /**
   Replay accepts exactly the acceptable closures: solving offline with a roster as the only
   supply returns that roster if and only if nothing in it is missing, superfluous or refused.
   */
  lemma ReplayIsExact(q: Query, roster: Selection)
    requires !Malformed(q)
    requires forall n <- roster :: roster[n].name == n
    ensures Bounded(RosterOffers(roster), roster.Keys)
    ensures Answer(q, RosterOffers(roster), roster.Keys) == Solved(roster) <==> Acceptable(q, roster)
  {
    RosterOffersProperties(q, roster);
    SolveIsSound(q, RosterOffers(roster), roster.Keys);
    if Acceptable(q, roster) {
      ReplayFinds(q, roster);
    }
  }

  /** Whatever provider found a closure, replaying the closure alone finds it again. */
  lemma ReplayReproduces(q: Query, offers: Offers, roster: set<string>)
    requires Bounded(offers, roster)
    requires Answer(q, offers, roster).Solved?
    ensures var found := Answer(q, offers, roster).selection;
            && Bounded(RosterOffers(found), found.Keys)
            && Answer(q, RosterOffers(found), found.Keys) == Solved(found)
  {
    SolveIsSound(q, offers, roster);
    ReplayIsExact(q, Answer(q, offers, roster).selection);
  }

  /** The empty closure is the answer exactly when no root requirement applies to the target. */
  lemma EmptyClosure(q: Query)
    requires !Malformed(q)
    ensures Acceptable(q, map[]) <==> forall k <- q.roots :: MarkerVerdict(q.pkg, k.marker, "") != Applies
  {
    ReachIsLeast(q, map[]);
    var rooted := set k | k in q.roots :: Item(k, "");
    assert Closed(q, map[], rooted) by {
      assert forall j | Rooted(q, j) :: j == Item(j.key, "");
    }
    assert Reach(q, map[]) <= rooted;
    forall k <- q.roots
      ensures Item(k, "") in Reach(q, map[])
      ensures MarkerVerdict(q.pkg, k.marker, "") == Applies <==> Active(q, Item(k, ""))
    {
      assert Rooted(q, Item(k, ""));
    }
    assert NeededNames(q, map[]) == {} <==> forall k <- q.roots :: MarkerVerdict(q.pkg, k.marker, "") != Applies by {
      forall k <- q.roots | MarkerVerdict(q.pkg, k.marker, "") == Applies
        ensures k.name in NeededNames(q, map[])
      {
        assert Active(q, Item(k, ""));
      }
    }
  }
}
