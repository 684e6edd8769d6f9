/**
 The names for which a search asks its provider: they alone determine its answer, a selection is made
 of them, and a search fails exactly if one of them could not be answered.
 */
module Asking {
  import opened Text
  import opened Requirements
  import opened Closure
  import opened Search

  /** What a search from `sel` on asks for, and what it asks for while it tries the wheels of one name. */
  ghost function Asked(q: Query, offers: Offers, roster: set<string>, sel: Selection): set<string>
    requires Bounded(offers, roster)
    decreases roster - sel.Keys, 1, 0
  {
    if Conflict(q, sel) || Missing(q, sel) == {} then {}
    else
      var name := Least(Missing(q, sel));
      (if TermsFor(q, name).Some? then {name} else {}) +
      AskedBy(q, offers, roster, sel, name, OfferedFor(q, offers, sel, name))
  }

  ghost function AskedBy(
    q: Query, offers: Offers, roster: set<string>, sel: Selection, name: string, s: Stream): set<string>
    requires Bounded(offers, roster)
    requires name !in sel && (s.wheels == [] || name in roster)
    decreases roster - sel.Keys, 0, |s.wheels|
  {
    if s.wheels == [] || s.wheels[0].name != name then {}
    else if !Admitted(q, sel, name, s.wheels[0]) then AskedBy(q, offers, roster, sel, name, Rest(s))
    else
      assert name in roster - sel.Keys;
      var next := sel[name := s.wheels[0]];
      Asked(q, offers, roster, next) +
      if Explore(q, offers, roster, next).NoClosure? then AskedBy(q, offers, roster, sel, name, Rest(s)) else {}
  }

  /** Two providers give the same answers about a name. */
  ghost predicate Agree(a: Offers, b: Offers, n: string) {
    forall keys, hashes, pre :: a(n, keys, hashes, pre) == b(n, keys, hashes, pre)
  }

  lemma OfferedAlike(q: Query, a: Offers, b: Offers, sel: Selection, n: string)
    requires TermsFor(q, n).Some? ==> Agree(a, b, n)
    ensures OfferedFor(q, a, sel, n) == OfferedFor(q, b, sel, n)
  {}

  /** The answer depends on nothing but what was asked for. */
  lemma {:induction false} AskedDetermines(q: Query, a: Offers, b: Offers, roster: set<string>, sel: Selection)
    requires Bounded(a, roster) && Bounded(b, roster)
    requires forall n <- Asked(q, a, roster, sel) :: Agree(a, b, n)
    ensures Explore(q, a, roster, sel) == Explore(q, b, roster, sel)
    decreases roster - sel.Keys, 1, 0
  {
    if !Conflict(q, sel) && Missing(q, sel) != {} {
      var n := Least(Missing(q, sel));
      OfferedAlike(q, a, b, sel, n);
      AskedByDetermines(q, a, b, roster, sel, n, OfferedFor(q, a, sel, n));
    }
  }

  lemma {:induction false} AskedByDetermines(q: Query, a: Offers, b: Offers, roster: set<string>, sel: Selection,
      n: string, s: Stream)
    requires Bounded(a, roster) && Bounded(b, roster)
    requires n !in sel && (s.wheels == [] || n in roster)
    requires forall m <- AskedBy(q, a, roster, sel, n, s) :: Agree(a, b, m)
    ensures Try(q, a, roster, sel, n, s) == Try(q, b, roster, sel, n, s)
    decreases roster - sel.Keys, 0, |s.wheels|
  {
    if s.wheels != [] && s.wheels[0].name == n {
      if Admitted(q, sel, n, s.wheels[0]) {
        assert n in roster - sel.Keys;
        var next := sel[n := s.wheels[0]];
        AskedDetermines(q, a, b, roster, next);
        if Explore(q, a, roster, next).NoClosure? {
          AskedByDetermines(q, a, b, roster, sel, n, Rest(s));
        }
      } else {
        AskedByDetermines(q, a, b, roster, sel, n, Rest(s));
      }
    }
  }

  /** Every selected name was asked for. */
  lemma {:induction false} SelectedWasAsked(q: Query, offers: Offers, roster: set<string>, sel: Selection)
    requires Bounded(offers, roster)
    ensures var r := Explore(q, offers, roster, sel);
            r.Solved? ==> r.selection.Keys <= sel.Keys + Asked(q, offers, roster, sel)
    decreases roster - sel.Keys, 1, 0
  {
    if !Conflict(q, sel) && Missing(q, sel) != {} {
      var n := Least(Missing(q, sel));
      if TermsFor(q, n).Some? {
        TriedWasAsked(q, offers, roster, sel, n, OfferedFor(q, offers, sel, n));
      }
    }
  }

  lemma {:induction false} TriedWasAsked(
    q: Query, offers: Offers, roster: set<string>, sel: Selection, n: string, s: Stream)
    requires Bounded(offers, roster)
    requires n !in sel && (s.wheels == [] || n in roster)
    ensures var r := Try(q, offers, roster, sel, n, s);
            r.Solved? ==> r.selection.Keys <= sel.Keys + {n} + AskedBy(q, offers, roster, sel, n, s)
    decreases roster - sel.Keys, 0, |s.wheels|
  {
    if s.wheels == [] {
    } else {
      TriedWasAsked(q, offers, roster, sel, n, Rest(s));
      if s.wheels[0].name == n && Admitted(q, sel, n, s.wheels[0]) {
        assert n in roster - sel.Keys;
        SelectedWasAsked(q, offers, roster, sel[n := s.wheels[0]]);
      }
    }
  }

  /** Asking for a name raises at once, whatever is demanded of it. */
  ghost predicate Refuses(offers: Offers, n: string) {
    forall keys, hashes, pre :: offers(n, keys, hashes, pre).wheels == [] && offers(n, keys, hashes, pre).failure.Some?
  }

  ghost predicate Answers(offers: Offers, n: string) {
    forall keys, hashes, pre :: Clean(offers(n, keys, hashes, pre), n)
  }

  lemma {:induction false} RefusalStops(q: Query, offers: Offers, roster: set<string>, sel: Selection, bad: string)
    requires Bounded(offers, roster) && bad in Asked(q, offers, roster, sel) && Refuses(offers, bad)
    ensures Explore(q, offers, roster, sel).Failed?
    decreases roster - sel.Keys, 1, 0
  {
    var n := Least(Missing(q, sel));
    if n != bad || TermsFor(q, n).None? {
      RefusalStopsTry(q, offers, roster, sel, n, OfferedFor(q, offers, sel, n), bad);
    }
  }

  lemma {:induction false} RefusalStopsTry(q: Query, offers: Offers, roster: set<string>, sel: Selection, n: string,
      s: Stream, bad: string)
    requires Bounded(offers, roster)
    requires n !in sel && (s.wheels == [] || n in roster)
    requires bad in AskedBy(q, offers, roster, sel, n, s) && Refuses(offers, bad)
    ensures Try(q, offers, roster, sel, n, s).Failed?
    decreases roster - sel.Keys, 0, |s.wheels|
  {
    if Admitted(q, sel, n, s.wheels[0]) {
      assert n in roster - sel.Keys;
      var next := sel[n := s.wheels[0]];
      if bad in Asked(q, offers, roster, next) {
        RefusalStops(q, offers, roster, next, bad);
      } else {
        RefusalStopsTry(q, offers, roster, sel, n, Rest(s), bad);
      }
    } else {
      RefusalStopsTry(q, offers, roster, sel, n, Rest(s), bad);
    }
  }

  lemma {:induction false} AnswersGoOn(q: Query, offers: Offers, roster: set<string>, sel: Selection)
    requires Bounded(offers, roster)
    requires forall n <- Asked(q, offers, roster, sel) :: Answers(offers, n)
    ensures !Explore(q, offers, roster, sel).Failed?
    decreases roster - sel.Keys, 1, 0
  {
    if !Conflict(q, sel) && Missing(q, sel) != {} {
      var n := Least(Missing(q, sel));
      var s := OfferedFor(q, offers, sel, n);
      assert AskedBy(q, offers, roster, sel, n, s) <= Asked(q, offers, roster, sel);
      assert TermsFor(q, n).Some? ==> n in Asked(q, offers, roster, sel) && Answers(offers, n);
      AnswersGoOnTry(q, offers, roster, sel, n, s);
    }
  }

  lemma {:induction false} AnswersGoOnTry(
    q: Query, offers: Offers, roster: set<string>, sel: Selection, n: string, s: Stream)
    requires Bounded(offers, roster) && Clean(s, n)
    requires n !in sel && (s.wheels == [] || n in roster)
    requires forall m <- AskedBy(q, offers, roster, sel, n, s) :: Answers(offers, m)
    ensures !Try(q, offers, roster, sel, n, s).Failed?
    decreases roster - sel.Keys, 0, |s.wheels|
  {
    if s.wheels == [] {
    } else {
      var w := s.wheels[0];
      assert w in s.wheels;
      TailStays(s.wheels);
      if Admitted(q, sel, n, w) {
        assert n in roster - sel.Keys;
        AnswersGoOn(q, offers, roster, sel[n := w]);
        if Explore(q, offers, roster, sel[n := w]).NoClosure? {
          AnswersGoOnTry(q, offers, roster, sel, n, Rest(s));
        }
      } else {
        AnswersGoOnTry(q, offers, roster, sel, n, Rest(s));
      }
    }
  }

  /** If every name is either answered or refused as a whole, a search fails exactly if it asks for a refused one. */
  lemma FailsExactly(q: Query, offers: Offers, roster: set<string>)
    requires Bounded(offers, roster) && !Malformed(q)
    requires forall n <- Asked(q, offers, roster, map[]) :: Answers(offers, n) || Refuses(offers, n)
    ensures Answer(q, offers, roster).Failed? <==> exists n <- Asked(q, offers, roster, map[]) :: Refuses(offers, n)
  {
    if n :| n in Asked(q, offers, roster, map[]) && Refuses(offers, n) {
      RefusalStops(q, offers, roster, map[], n);
    } else {
      AnswersGoOn(q, offers, roster, map[]);
    }
  }
}
