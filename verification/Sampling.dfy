/** Stratified sampling of a frozen audit population, and the inclusion probabilities it records. */
module Sampling {
  import opened Text
  import opened Sorting

  datatype Unit = Patch | Source

  /** What places a unit in a stratum; the status of a patch is the verifier's decision. */
  datatype Cell = Cell(unit: Unit, family: string, status: string, category: string)

  datatype Entry = Entry(subject: string, cell: Cell)

  datatype Stratum = Stratum(name: string, cell: Cell, sampleSize: nat)

  /** A selected unit, its stratum, and the probability with which it was selected. */
  datatype Selection = Selection(entry: Entry, stratum: string, probability: real)

  /** The digest that ranks a subject within a stratum, under the seed of the plan. */
  type Ranking = (string, string) -> string

  /** What a population frame and a sampling plan guarantee of themselves. */
  ghost predicate ValidFrame(entries: seq<Entry>) {
    entries != [] && forall i, j | 0 <= i < j < |entries| :: entries[i].subject != entries[j].subject
  }

  ghost predicate ValidPlan(strata: seq<Stratum>) {
    && strata != [] && (forall st <- strata :: st.sampleSize > 0)
    && forall i, j | 0 <= i < j < |strata| :: strata[i].name != strata[j].name
  }

  function CountMatches(strata: seq<Stratum>, cell: Cell): nat {
    if strata == [] then 0 else (if strata[0].cell == cell then 1 else 0) + CountMatches(strata[1..], cell)
  }

  /** The units of a stratum, in the order of the population. */
  function Members(entries: seq<Entry>, cell: Cell): seq<Entry> {
    if entries == [] then []
    else (if entries[0].cell == cell then [entries[0]] else []) + Members(entries[1..], cell)
  }

  function ByRank(rank: Ranking, stratum: string): (Entry, Entry) -> bool {
    (a: Entry, b: Entry) => Less(rank(stratum, a.subject), rank(stratum, b.subject))
  }

  /** What is drawn from a stratum: the units of lowest rank. */
  function Drawn(entries: seq<Entry>, st: Stratum, rank: Ranking): seq<Entry>
    requires st.sampleSize <= |Members(entries, st.cell)|
  {
    SortElements(ByRank(rank, st.name), Members(entries, st.cell));
    SameLength(StableSort(ByRank(rank, st.name), Members(entries, st.cell)), Members(entries, st.cell));
    StableSort(ByRank(rank, st.name), Members(entries, st.cell))[..st.sampleSize]
  }

  lemma SameLength<T>(s: seq<T>, t: seq<T>)
    requires multiset(s) == multiset(t)
    ensures |s| == |t|
  {
    assert |multiset(s)| == |s| && |multiset(t)| == |t|;
  }

  function Recorded(drawn: seq<Entry>, stratum: string, probability: real): seq<Selection> {
    if drawn == [] then [] else [Selection(drawn[0], stratum, probability)] + Recorded(drawn[1..], stratum, probability)
  }

  predicate Affordable(entries: seq<Entry>, strata: seq<Stratum>) {
    forall st <- strata :: 0 < st.sampleSize <= |Members(entries, st.cell)|
  }

  function Probability(entries: seq<Entry>, st: Stratum): (p: real)
    requires 0 < st.sampleSize <= |Members(entries, st.cell)|
    ensures 0.0 < p <= 1.0
  {
    st.sampleSize as real / |Members(entries, st.cell)| as real
  }

  function Sample(entries: seq<Entry>, st: Stratum, rank: Ranking): seq<Selection>
    requires 0 < st.sampleSize <= |Members(entries, st.cell)|
  {
    Recorded(Drawn(entries, st, rank), st.name, Probability(entries, st))
  }

  /** What the plan selects, stratum after stratum. */
  function Selected(entries: seq<Entry>, strata: seq<Stratum>, rank: Ranking): seq<Selection>
    requires Affordable(entries, strata)
  {
    if strata == [] then [] else Sample(entries, strata[0], rank) + Selected(entries, strata[1..], rank)
  }

  /** Every unit matches exactly one stratum, and no stratum wants more units than it has. */
  predicate Derivable(entries: seq<Entry>, strata: seq<Stratum>) {
    && (forall e <- entries :: CountMatches(strata, e.cell) == 1)
    && Affordable(entries, strata)
  }

  /** A manifest must contain accepted and rejected patches and a rejected source. */
  predicate Complete(selections: seq<Selection>) {
    && (exists s <- selections :: s.entry.cell.unit.Patch? && s.entry.cell.status == "accepted")
    && (exists s <- selections :: s.entry.cell.unit.Patch? && s.entry.cell.status == "rejected")
    && (exists s <- selections :: s.entry.cell.unit.Source?)
  }

  // ---------- totals ----------

  ghost function Total(f: Entry -> real, entries: seq<Entry>): real {
    if entries == [] then 0.0 else f(entries[0]) + Total(f, entries[1..])
  }

  /** The inverse-probability weighted total of a sample. */
  ghost function Weighted(f: Entry -> real, selections: seq<Selection>): real
    requires forall s <- selections :: s.probability > 0.0
  {
    if selections == [] then 0.0
    else f(selections[0].entry) / selections[0].probability + Weighted(f, selections[1..])
  }

  ghost function TotalOver(f: Entry -> real, entries: seq<Entry>, strata: seq<Stratum>): real {
    if strata == [] then 0.0 else Total(f, Members(entries, strata[0].cell)) + TotalOver(f, entries, strata[1..])
  }

  lemma {:induction false} TotalInsert(f: Entry -> real, before: (Entry, Entry) -> bool, x: Entry, s: seq<Entry>)
    ensures Total(f, Insert(before, x, s)) == f(x) + Total(f, s)
  {
    if s != [] && before(s[0], x) {
      TotalInsert(f, before, x, s[1..]);
      assert ([s[0]] + Insert(before, x, s[1..]))[1..] == Insert(before, x, s[1..]);
    } else {
      assert ([x] + s)[1..] == s;
    }
  }

  lemma {:induction false} TotalSorted(f: Entry -> real, before: (Entry, Entry) -> bool, s: seq<Entry>)
    ensures Total(f, StableSort(before, s)) == Total(f, s)
  {
    if s == [] {
    } else {
      TotalSorted(f, before, s[1..]);
      TotalInsert(f, before, s[0], StableSort(before, s[1..]));
    }
  }

  lemma MembersNext(f: Entry -> real, entries: seq<Entry>, cell: Cell)
    requires entries != []
    ensures Total(f, Members(entries, cell)) ==
            (if entries[0].cell == cell then f(entries[0]) else 0.0) + Total(f, Members(entries[1..], cell))
  {
    var rest := Members(entries[1..], cell);
    if entries[0].cell == cell {
      assert ([entries[0]] + rest)[1..] == rest;
    } else {
      assert [] + rest == rest;
    }
  }

  /** `n` times `x`. */
  ghost function Times(n: nat, x: real): real {
    if n == 0 then 0.0 else x + Times(n - 1, x)
  }

  lemma {:induction false} TimesIsProduct(n: nat, x: real)
    ensures Times(n, x) == n as real * x
  {
    if n == 0 {
    } else {
      TimesIsProduct(n - 1, x);
      Distribute((n - 1) as real, x);
    }
  }

  lemma Distribute(m: real, x: real)
    ensures (m + 1.0) * x == x + m * x
  {}

  lemma {:induction false} TotalOverNext(f: Entry -> real, entries: seq<Entry>, strata: seq<Stratum>)
    requires entries != []
    ensures TotalOver(f, entries, strata) ==
            Times(CountMatches(strata, entries[0].cell), f(entries[0])) + TotalOver(f, entries[1..], strata)
  {
    if strata == [] {
    } else {
      TotalOverNext(f, entries, strata[1..]);
      MembersNext(f, entries, strata[0].cell);
    }
  }

  /** The strata partition the population: any quantity adds up over them. */
  lemma {:induction false} StrataPartition(f: Entry -> real, entries: seq<Entry>, strata: seq<Stratum>)
    requires forall e <- entries :: CountMatches(strata, e.cell) == 1
    ensures TotalOver(f, entries, strata) == Total(f, entries)
  {
    if entries == [] {
      NothingOver(f, strata);
    } else {
      StrataPartition(f, entries[1..], strata);
      TotalOverNext(f, entries, strata);
    }
  }

  lemma {:induction false} NothingOver(f: Entry -> real, strata: seq<Stratum>)
    ensures TotalOver(f, [], strata) == 0.0
  {
    if strata == [] {
    } else {
      NothingOver(f, strata[1..]);
    }
  }

  lemma {:induction false} WeightedAppend(f: Entry -> real, a: seq<Selection>, b: seq<Selection>)
    requires (forall s <- a :: s.probability > 0.0) && forall s <- b :: s.probability > 0.0
    ensures forall s <- a + b :: s.probability > 0.0
    ensures Weighted(f, a + b) == Weighted(f, a) + Weighted(f, b)
  {
    if a == [] {
      assert a + b == b;
    } else {
      assert (a + b)[1..] == a[1..] + b;
      WeightedAppend(f, a[1..], b);
    }
  }

  lemma AddDivide(a: real, b: real, p: real)
    requires p > 0.0
    ensures (a + b) / p == a / p + b / p
  {}

  lemma {:induction false} WeightedRecorded(f: Entry -> real, drawn: seq<Entry>, stratum: string, p: real)
    requires p > 0.0
    ensures forall s <- Recorded(drawn, stratum, p) :: s.probability == p
    ensures Weighted(f, Recorded(drawn, stratum, p)) == Total(f, drawn) / p
  {
    if drawn == [] {
    } else {
      WeightedRecorded(f, drawn[1..], stratum, p);
      var rest := Recorded(drawn[1..], stratum, p);
      assert ([Selection(drawn[0], stratum, p)] + rest)[1..] == rest;
      AddDivide(f(drawn[0]), Total(f, drawn[1..]), p);
    }
  }

  ghost predicate Constant(f: Entry -> real, entries: seq<Entry>) {
    forall e, e' :: e in entries && e' in entries ==> f(e) == f(e')
  }

  lemma {:induction false} TotalConstant(f: Entry -> real, entries: seq<Entry>, c: real)
    requires forall e <- entries :: f(e) == c
    ensures Total(f, entries) == Times(|entries|, c)
  {
    if entries == [] {
    } else {
      TotalConstant(f, entries[1..], c);
    }
  }

  lemma WholeRatio(n: nat)
    requires n > 0
    ensures n as real / n as real == 1.0
  {}

  lemma DrawnWhole(f: Entry -> real, entries: seq<Entry>, st: Stratum, rank: Ranking)
    requires 0 < st.sampleSize == |Members(entries, st.cell)|
    ensures Total(f, Drawn(entries, st, rank)) == Total(f, Members(entries, st.cell))
  {
    var members := Members(entries, st.cell);
    var sorted := StableSort(ByRank(rank, st.name), members);
    SortElements(ByRank(rank, st.name), members);
    SameLength(sorted, members);
    assert sorted[..st.sampleSize] == sorted;
    TotalSorted(f, ByRank(rank, st.name), members);
  }

  lemma DrawnAreMembers(entries: seq<Entry>, st: Stratum, rank: Ranking)
    requires 0 < st.sampleSize <= |Members(entries, st.cell)|
    ensures |Drawn(entries, st, rank)| == st.sampleSize
    ensures forall e <- Drawn(entries, st, rank) :: e in Members(entries, st.cell)
  {
    var members := Members(entries, st.cell);
    var sorted := StableSort(ByRank(rank, st.name), members);
    SortElements(ByRank(rank, st.name), members);
    SameLength(sorted, members);
    forall e <- sorted[..st.sampleSize]
      ensures e in members
    {
      assert e in multiset(sorted);
    }
  }

  lemma DrawnAlike(f: Entry -> real, entries: seq<Entry>, st: Stratum, rank: Ranking)
    requires 0 < st.sampleSize <= |Members(entries, st.cell)|
    requires Constant(f, Members(entries, st.cell))
    ensures Total(f, Drawn(entries, st, rank)) / Probability(entries, st) == Total(f, Members(entries, st.cell))
  {
    var members := Members(entries, st.cell);
    var c := f(members[0]);
    assert members[0] in members;
    DrawnAreMembers(entries, st, rank);
    TotalConstant(f, members, c);
    TotalConstant(f, Drawn(entries, st, rank), c);
    Cancel(c, st.sampleSize, |members|);
  }

  lemma Exchange(p: real, n: real, c: real)
    ensures n * c * p == p * n * c
  {
    calc {
      n * c * p;
    ==
      p * (n * c);
    ==
      p * n * c;
    }
  }

  lemma Undo(p: real, u: real, t: real)
    requires p > 0.0 && u * p == t
    ensures t / p == u
  {
    var q := t / p;
    assert q * p == t;
    assert (q - u) * p == 0.0;
  }

  lemma RatioIsPositive(k: real, n: real)
    requires k > 0.0 && n > 0.0
    ensures k / n > 0.0 && k / n * n == k
  {}

  lemma CancelRatio(c: real, k: real, n: real)
    requires k > 0.0 && n > 0.0
    ensures k / n > 0.0 && k * c / (k / n) == n * c
  {
    RatioIsPositive(k, n);
    var p := k / n;
    Exchange(p, n, c);
    Undo(p, n * c, k * c);
  }

  lemma Cancel(c: real, k: nat, n: nat)
    requires 0 < k && 0 < n
    ensures k as real / n as real > 0.0
    ensures Times(k, c) / (k as real / n as real) == Times(n, c)
  {
    TimesIsProduct(k, c);
    TimesIsProduct(n, c);
    CancelRatio(c, k as real, n as real);
  }

  /** One stratum is represented exactly if it is drawn whole, or if the quantity is the same on all of it. */
  lemma StratumIsExact(f: Entry -> real, entries: seq<Entry>, st: Stratum, rank: Ranking)
    requires 0 < st.sampleSize <= |Members(entries, st.cell)|
    requires st.sampleSize == |Members(entries, st.cell)| || Constant(f, Members(entries, st.cell))
    ensures forall s <- Sample(entries, st, rank) :: s.probability > 0.0
    ensures Weighted(f, Sample(entries, st, rank)) == Total(f, Members(entries, st.cell))
  {
    WeightedRecorded(f, Drawn(entries, st, rank), st.name, Probability(entries, st));
    if st.sampleSize == |Members(entries, st.cell)| {
      DrawnWhole(f, entries, st, rank);
      WholeRatio(st.sampleSize);
    } else {
      DrawnAlike(f, entries, st, rank);
    }
  }

  lemma {:induction false} RecordedProbability(drawn: seq<Entry>, stratum: string, p: real)
    ensures forall s <- Recorded(drawn, stratum, p) :: s.probability == p
  {
    if drawn == [] {
    } else {
      RecordedProbability(drawn[1..], stratum, p);
    }
  }

  /** Recorded probabilities are probabilities. */
  lemma {:induction false} SelectedProbability(entries: seq<Entry>, strata: seq<Stratum>, rank: Ranking)
    requires Affordable(entries, strata)
    ensures forall s <- Selected(entries, strata, rank) :: 0.0 < s.probability <= 1.0
  {
    if strata == [] {
    } else {
      RecordedProbability(Drawn(entries, strata[0], rank), strata[0].name, Probability(entries, strata[0]));
      SelectedProbability(entries, strata[1..], rank);
    }
  }

  lemma {:induction false} SelectedIsExact(f: Entry -> real, entries: seq<Entry>, strata: seq<Stratum>, rank: Ranking)
    requires Affordable(entries, strata)
    requires forall st <- strata ::
             st.sampleSize == |Members(entries, st.cell)| || Constant(f, Members(entries, st.cell))
    ensures forall s <- Selected(entries, strata, rank) :: s.probability > 0.0
    ensures Weighted(f, Selected(entries, strata, rank)) == TotalOver(f, entries, strata)
  {
    SelectedProbability(entries, strata, rank);
    if strata != [] {
      SelectedIsExact(f, entries, strata[1..], rank);
      StratumIsExact(f, entries, strata[0], rank);
      WeightedAppend(f, Sample(entries, strata[0], rank), Selected(entries, strata[1..], rank));
    }
  }

  /**
   The weights are right: the weighted total of the sample is the population's total, for every
   quantity that is constant on each stratum that is not drawn whole.
   */
  lemma WeightedTotalIsExact(f: Entry -> real, entries: seq<Entry>, strata: seq<Stratum>, rank: Ranking)
    requires Derivable(entries, strata)
    requires forall st <- strata ::
             st.sampleSize == |Members(entries, st.cell)| || Constant(f, Members(entries, st.cell))
    ensures forall s <- Selected(entries, strata, rank) :: 0.0 < s.probability <= 1.0
    ensures Weighted(f, Selected(entries, strata, rank)) == Total(f, entries)
  {
    SelectedProbability(entries, strata, rank);
    SelectedIsExact(f, entries, strata, rank);
    StrataPartition(f, entries, strata);
  }

  function One(e: Entry): real {
    1.0
  }

  /** The inverse probabilities of the selected units add up to the size of the population. */
  lemma WeightsAddUp(entries: seq<Entry>, strata: seq<Stratum>, rank: Ranking)
    requires Derivable(entries, strata)
    ensures forall s <- Selected(entries, strata, rank) :: 0.0 < s.probability <= 1.0
    ensures Weighted(One, Selected(entries, strata, rank)) == |entries| as real
  {
    WeightedTotalIsExact(One, entries, strata, rank);
    TotalIsCount(entries);
  }

  lemma {:induction false} TotalIsCount(entries: seq<Entry>)
    ensures Total(One, entries) == |entries| as real
  {
    if entries == [] {
    } else {
      TotalIsCount(entries[1..]);
    }
  }

  // ---------- which units are drawn ----------

  predicate Apart(a: Entry, b: Entry) {
    a.subject != b.subject
  }

  /** Different subjects have different ranks in every stratum. */
  ghost predicate Injective(rank: Ranking) {
    forall stratum, a, b :: rank(stratum, a) == rank(stratum, b) ==> a == b
  }

  lemma {:induction false} MembersMeaning(entries: seq<Entry>, cell: Cell)
    ensures forall e :: e in Members(entries, cell) <==> e in entries && e.cell == cell
  {
    if entries == [] {
    } else {
      MembersMeaning(entries[1..], cell);
      assert entries == [entries[0]] + entries[1..];
    }
  }

  lemma {:induction false} MembersApart(entries: seq<Entry>, cell: Cell)
    requires Ordered(Apart, entries)
    ensures Ordered(Apart, Members(entries, cell))
  {
    if entries == [] {
    } else {
      OrderedTail(Apart, entries);
      MembersApart(entries[1..], cell);
      MembersMeaning(entries[1..], cell);
      forall e <- Members(entries[1..], cell)
        ensures Apart(entries[0], e)
      {
        var j :| 0 <= j < |entries[1..]| && entries[1..][j] == e;
        assert entries[j + 1] == e;
      }
    }
  }

  lemma ByRankIsStrict(rank: Ranking, stratum: string)
    ensures StrictWeak(ByRank(rank, stratum))
  {
    var before := ByRank(rank, stratum);
    forall a
      ensures !before(a, a)
    {
      LessIrreflexive(rank(stratum, a.subject));
    }
    forall a, b, c | before(a, b) && before(b, c)
      ensures before(a, c)
    {
      LessTransitive(rank(stratum, a.subject), rank(stratum, b.subject), rank(stratum, c.subject));
    }
    forall a, b, c | before(a, c)
      ensures before(a, b) || before(b, c)
    {
      LessTotal(rank(stratum, a.subject), rank(stratum, b.subject));
      if before(b, a) {
        LessTransitive(rank(stratum, b.subject), rank(stratum, a.subject), rank(stratum, c.subject));
      }
    }
  }

  /** A stratum's units in the order of their ranks, all apart. */
  lemma RankedStratum(entries: seq<Entry>, st: Stratum, rank: Ranking)
    requires Ordered(Apart, entries) && Injective(rank)
    ensures Ordered(ByRank(rank, st.name), StableSort(ByRank(rank, st.name), Members(entries, st.cell)))
  {
    var before := ByRank(rank, st.name);
    var sorted := StableSort(before, Members(entries, st.cell));
    MembersApart(entries, st.cell);
    ByRankIsStrict(rank, st.name);
    StableSortIsLexicographic(before, Apart, Members(entries, st.cell));
    forall i, j | 0 <= i < j < |sorted|
      ensures before(sorted[i], sorted[j])
    {
      ThenMeaning(before, Apart, sorted[i], sorted[j]);
      LessTotal(rank(st.name, sorted[i].subject), rank(st.name, sorted[j].subject));
    }
  }

  /**
   The sample of a stratum: as many units as the plan says, all different, all members, and no
   member that was left out ranks before one that was drawn.
   */
  lemma DrawnAreLowest(entries: seq<Entry>, st: Stratum, rank: Ranking)
    requires Ordered(Apart, entries) && Injective(rank)
    requires 0 < st.sampleSize <= |Members(entries, st.cell)|
    ensures var drawn := Drawn(entries, st, rank);
            && |drawn| == st.sampleSize && Ordered(Apart, drawn)
            && (forall e <- drawn :: e in entries && e.cell == st.cell)
            && forall e, o :: e in drawn && o in entries && o.cell == st.cell && o !in drawn ==>
               ByRank(rank, st.name)(e, o)
  {
    var drawn := Drawn(entries, st, rank);
    DrawnAreMembers(entries, st, rank);
    MembersMeaning(entries, st.cell);
    RankedStratum(entries, st, rank);
    SortElements(ByRank(rank, st.name), Members(entries, st.cell));
    FirstApart(StableSort(ByRank(rank, st.name), Members(entries, st.cell)), st, rank);
    forall e, o | e in drawn && o in entries && o.cell == st.cell && o !in drawn
      ensures ByRank(rank, st.name)(e, o)
    {
      assert o in multiset(StableSort(ByRank(rank, st.name), Members(entries, st.cell)));
      FirstIsLower(StableSort(ByRank(rank, st.name), Members(entries, st.cell)), st, rank, e, o);
    }
  }

  lemma FirstApart(sorted: seq<Entry>, st: Stratum, rank: Ranking)
    requires Ordered(ByRank(rank, st.name), sorted) && st.sampleSize <= |sorted|
    ensures Ordered(Apart, sorted[..st.sampleSize])
  {
    forall i, j | 0 <= i < j < st.sampleSize
      ensures Apart(sorted[i], sorted[j])
    {
      assert ByRank(rank, st.name)(sorted[i], sorted[j]);
      LessIrreflexive(rank(st.name, sorted[i].subject));
    }
  }

  lemma FirstIsLower(sorted: seq<Entry>, st: Stratum, rank: Ranking, e: Entry, o: Entry)
    requires Ordered(ByRank(rank, st.name), sorted) && st.sampleSize <= |sorted|
    requires e in sorted[..st.sampleSize] && o in sorted && o !in sorted[..st.sampleSize]
    ensures ByRank(rank, st.name)(e, o)
  {
    var i :| 0 <= i < st.sampleSize && sorted[i] == e;
    var j :| 0 <= j < |sorted| && sorted[j] == o;
    assert forall k | 0 <= k < st.sampleSize :: sorted[k] in sorted[..st.sampleSize];
  }

  /** What is drawn from one stratum is drawn once. */
  lemma DrawnAreApart(entries: seq<Entry>, st: Stratum, rank: Ranking)
    requires Ordered(Apart, entries) && 0 < st.sampleSize <= |Members(entries, st.cell)|
    ensures Ordered(Apart, Drawn(entries, st, rank))
    ensures forall e <- Drawn(entries, st, rank) :: e in entries && e.cell == st.cell
  {
    var before := ByRank(rank, st.name);
    var drawn, sorted := Drawn(entries, st, rank), StableSort(before, Members(entries, st.cell));
    DrawnAreMembers(entries, st, rank);
    MembersMeaning(entries, st.cell);
    MembersApart(entries, st.cell);
    ByRankIsStrict(rank, st.name);
    StableSortIsLexicographic(before, Apart, Members(entries, st.cell));
    SortElements(before, Members(entries, st.cell));
    SameLength(sorted, Members(entries, st.cell));
    assert drawn == sorted[..st.sampleSize];
    forall i, j | 0 <= i < j < |drawn|
      ensures Apart(drawn[i], drawn[j])
    {
      ThenMeaning(before, Apart, sorted[i], sorted[j]);
      assert Then(before, Apart)(sorted[i], sorted[j]);
      LessIrreflexive(rank(st.name, sorted[i].subject));
    }
  }

  predicate ApartSelections(a: Selection, b: Selection) {
    Apart(a.entry, b.entry)
  }

  lemma {:induction false} RecordedApart(drawn: seq<Entry>, stratum: string, p: real)
    requires Ordered(Apart, drawn)
    ensures Ordered(ApartSelections, Recorded(drawn, stratum, p))
    ensures forall s <- Recorded(drawn, stratum, p) :: s.entry in drawn
  {
    if drawn == [] {
    } else {
      OrderedTail(Apart, drawn);
      RecordedApart(drawn[1..], stratum, p);
      FirstComesFirst(Apart, drawn);
      assert forall e <- drawn[1..] :: e in drawn;
      forall s <- Recorded(drawn[1..], stratum, p)
        ensures Apart(drawn[0], s.entry)
      {
        var j :| 0 <= j < |drawn[1..]| && drawn[1..][j] == s.entry;
        assert drawn[j + 1] == s.entry;
      }
    }
  }

  lemma SameSubject(entries: seq<Entry>, e: Entry, o: Entry)
    requires Ordered(Apart, entries) && e in entries && o in entries && e.subject == o.subject
    ensures e == o
  {
    var i :| 0 <= i < |entries| && entries[i] == e;
    var j :| 0 <= j < |entries| && entries[j] == o;
    assert !(i < j) && !(j < i);
  }

  /** No unit is selected twice: the manifest's own check on its subjects never fails. */
  lemma {:induction false} SelectedAreApart(entries: seq<Entry>, strata: seq<Stratum>, rank: Ranking)
    requires Ordered(Apart, entries) && Affordable(entries, strata)
    requires forall e <- entries :: CountMatches(strata, e.cell) <= 1
    ensures Ordered(ApartSelections, Selected(entries, strata, rank))
    ensures forall s <- Selected(entries, strata, rank) :: s.entry in entries && CountMatches(strata, s.entry.cell) > 0
  {
    if strata == [] {
    } else {
      var first, later := Sample(entries, strata[0], rank), Selected(entries, strata[1..], rank);
      SelectedAreApart(entries, strata[1..], rank);
      DrawnAreApart(entries, strata[0], rank);
      RecordedApart(Drawn(entries, strata[0], rank), strata[0].name, Probability(entries, strata[0]));
      forall s, t | s in first && t in later
        ensures ApartSelections(s, t)
      {
        if s.entry.subject == t.entry.subject {
          SameSubject(entries, s.entry, t.entry);
        }
      }
      JoinApart(first, later);
    }
  }

  lemma JoinApart(a: seq<Selection>, b: seq<Selection>)
    requires Ordered(ApartSelections, a) && Ordered(ApartSelections, b)
    requires forall s, t | s in a && t in b :: ApartSelections(s, t)
    ensures Ordered(ApartSelections, a + b)
  {
    forall i, j | 0 <= i < j < |a + b|
      ensures ApartSelections((a + b)[i], (a + b)[j])
    {
      if i < |a| <= j {
        assert (a + b)[i] in a && (a + b)[j] in b;
      }
    }
  }

  lemma {:induction false} MembersMultiset(entries: seq<Entry>, cell: Cell, e: Entry)
    ensures multiset(Members(entries, cell))[e] == if e.cell == cell then multiset(entries)[e] else 0
  {
    if entries == [] {
    } else {
      MembersMultiset(entries[1..], cell, e);
      assert entries == [entries[0]] + entries[1..];
    }
  }

  lemma SameMembers(entries: seq<Entry>, shuffled: seq<Entry>, cell: Cell)
    requires multiset(entries) == multiset(shuffled)
    ensures multiset(Members(entries, cell)) == multiset(Members(shuffled, cell))
  {
    forall e: Entry
      ensures multiset(Members(entries, cell))[e] == multiset(Members(shuffled, cell))[e]
    {
      MembersMultiset(entries, cell, e);
      MembersMultiset(shuffled, cell, e);
    }
  }

  /** What is selected does not depend on the order in which the population is listed. */
  lemma DrawnIgnoresOrder(entries: seq<Entry>, shuffled: seq<Entry>, st: Stratum, rank: Ranking)
    requires Ordered(Apart, entries) && Ordered(Apart, shuffled) && Injective(rank)
    requires multiset(entries) == multiset(shuffled)
    requires 0 < st.sampleSize <= |Members(entries, st.cell)|
    ensures |Members(shuffled, st.cell)| == |Members(entries, st.cell)|
    ensures Sample(shuffled, st, rank) == Sample(entries, st, rank)
  {
    var a, b := Members(entries, st.cell), Members(shuffled, st.cell);
    SameMembers(entries, shuffled, st.cell);
    SameLength(a, b);
    RankedStratum(entries, st, rank);
    RankedStratum(shuffled, st, rank);
    ByRankIsStrict(rank, st.name);
    SameSorted(ByRank(rank, st.name), a, b);
  }

  lemma SameSorted(before: (Entry, Entry) -> bool, a: seq<Entry>, b: seq<Entry>)
    requires StrictWeak(before) && multiset(a) == multiset(b)
    requires Ordered(before, StableSort(before, a)) && Ordered(before, StableSort(before, b))
    ensures StableSort(before, a) == StableSort(before, b)
  {
    SortElements(before, a);
    SortElements(before, b);
    assert forall x, y :: before(x, y) ==> !before(y, x) by {
      assert forall x, y :: before(x, y) && before(y, x) ==> before(x, x);
    }
    OrderIsUnique(before, StableSort(before, a), StableSort(before, b));
  }

  lemma {:induction false} SelectionIgnoresOrder(
    entries: seq<Entry>, shuffled: seq<Entry>, strata: seq<Stratum>, rank: Ranking)
    requires Ordered(Apart, entries) && Ordered(Apart, shuffled) && Injective(rank)
    requires multiset(entries) == multiset(shuffled) && Affordable(entries, strata)
    ensures Affordable(shuffled, strata)
    ensures Selected(shuffled, strata, rank) == Selected(entries, strata, rank)
  {
    if strata == [] {
    } else {
      DrawnIgnoresOrder(entries, shuffled, strata[0], rank);
      SelectionIgnoresOrder(entries, shuffled, strata[1..], rank);
      assert strata == [strata[0]] + strata[1..];
    }
  }

  // ---------- derivation ----------

  lemma {:induction false} MembersSnoc(entries: seq<Entry>, e: Entry, cell: Cell)
    ensures Members(entries + [e], cell) == Members(entries, cell) + (if e.cell == cell then [e] else [])
  {
    if entries == [] {
      assert entries + [e] == [e];
      assert Members([e], cell) == (if e.cell == cell then [e] else []);
    } else {
      assert (entries + [e])[1..] == entries[1..] + [e];
      MembersSnoc(entries[1..], e, cell);
    }
  }

  lemma AffordableSnoc(entries: seq<Entry>, strata: seq<Stratum>, st: Stratum)
    ensures Affordable(entries, strata + [st]) <==>
            Affordable(entries, strata) && 0 < st.sampleSize <= |Members(entries, st.cell)|
  {
    var all := strata + [st];
    assert forall k | 0 <= k < |strata| :: all[k] == strata[k];
    assert all[|strata|] == st;
  }

  lemma {:induction false} SelectedSnoc(entries: seq<Entry>, strata: seq<Stratum>, st: Stratum, rank: Ranking)
    requires Affordable(entries, strata) && Affordable(entries, strata + [st])
    ensures 0 < st.sampleSize <= |Members(entries, st.cell)|
    ensures Selected(entries, strata + [st], rank) == Selected(entries, strata, rank) + Sample(entries, st, rank)
  {
    AffordableSnoc(entries, strata, st);
    if strata == [] {
      assert strata + [st] == [st];
      assert Selected(entries, [st], rank) == Sample(entries, st, rank) + Selected(entries, [], rank);
    } else {
      assert (strata + [st])[1..] == strata[1..] + [st];
      SelectedSnoc(entries, strata[1..], st, rank);
    }
  }

  /** The only stratum of a cell, and where it is. */
  lemma {:induction false} OnlyMatch(strata: seq<Stratum>, cell: Cell) returns (i: nat)
    requires CountMatches(strata, cell) == 1
    ensures i < |strata| && strata[i].cell == cell
    ensures forall j | 0 <= j < |strata| :: strata[j].cell == cell ==> j == i
  {
    if strata[0].cell == cell {
      i := 0;
      forall j | 0 <= j < |strata| && strata[j].cell == cell
        ensures j == 0
      {
        if j > 0 {
          NoMatch(strata[1..], cell, j - 1);
        }
      }
    } else {
      i := OnlyMatch(strata[1..], cell);
      i := i + 1;
      assert forall j | 1 <= j < |strata| :: strata[j] == strata[1..][j - 1];
    }
  }

  lemma {:induction false} NoMatch(strata: seq<Stratum>, cell: Cell, j: nat)
    requires CountMatches(strata, cell) == 0 && j < |strata|
    ensures strata[j].cell != cell
  {
    if j == 0 {
    } else {
      NoMatch(strata[1..], cell, j - 1);
    }
  }

  /** The name of the stratum that a unit belongs to, unless none or several match. */
  method FindStratum(strata: seq<Stratum>, cell: Cell) returns (name: Option<string>)
    ensures name.Some? <==> CountMatches(strata, cell) == 1
    ensures name.Some? ==> exists st <- strata :: st.cell == cell && st.name == name.value
  {
    var count := 0;
    name := None;
    for i := 0 to |strata|
      invariant count + CountMatches(strata[i..], cell) == CountMatches(strata, cell)
      invariant count > 0 ==> name.Some? && exists st <- strata :: st.cell == cell && st.name == name.value
    {
      assert strata[i..][1..] == strata[i + 1..];
      if strata[i].cell == cell {
        assert strata[i] in strata;
        count, name := count + 1, Some(strata[i].name);
      }
    }
    if count != 1 {
      name := None;
    }
  }

  ghost predicate Grouped(groups: map<string, seq<Entry>>, entries: seq<Entry>, strata: seq<Stratum>) {
    forall st <- strata :: st.name in groups && groups[st.name] == Members(entries, st.cell)
  }

  /** Puts every unit into the group of its stratum; refused unless each has exactly one. */
  method Group(entries: seq<Entry>, strata: seq<Stratum>) returns (groups: Option<map<string, seq<Entry>>>)
    requires ValidPlan(strata)
    ensures groups.Some? <==> forall e <- entries :: CountMatches(strata, e.cell) == 1
    ensures groups.Some? ==> Grouped(groups.value, entries, strata)
  {
    var grouped: map<string, seq<Entry>> := map st <- strata :: st.name := [];
    for i := 0 to |entries|
      invariant forall e <- entries[..i] :: CountMatches(strata, e.cell) == 1
      invariant Grouped(grouped, entries[..i], strata)
    {
      var e := entries[i];
      var name := FindStratum(strata, e.cell);
      if name.None? {
        assert e in entries;
        return None;
      }
      PrefixNext(entries, i);
      GroupNext(grouped, entries[..i], e, strata, name.value);
      grouped := grouped[name.value := grouped[name.value] + [e]];
    }
    assert entries[..|entries|] == entries;
    return Some(grouped);
  }

  lemma GroupNext(groups: map<string, seq<Entry>>, entries: seq<Entry>, e: Entry, strata: seq<Stratum>, name: string)
    requires ValidPlan(strata) && CountMatches(strata, e.cell) == 1
    requires Grouped(groups, entries, strata)
    requires exists st <- strata :: st.cell == e.cell && st.name == name
    ensures name in groups
    ensures Grouped(groups[name := groups[name] + [e]], entries + [e], strata)
  {
    var i := OnlyMatch(strata, e.cell);
    forall st <- strata
      ensures Members(entries + [e], st.cell) == Members(entries, st.cell) + (if st.name == name then [e] else [])
    {
      MembersSnoc(entries, e, st.cell);
      var j :| 0 <= j < |strata| && strata[j] == st;
      assert st.name == name <==> j == i;
    }
  }

  lemma {:induction false} RecordedSnoc(drawn: seq<Entry>, e: Entry, stratum: string, p: real)
    ensures Recorded(drawn + [e], stratum, p) == Recorded(drawn, stratum, p) + [Selection(e, stratum, p)]
  {
    if drawn == [] {
      assert [] + [e] == [e];
    } else {
      assert (drawn + [e])[1..] == drawn[1..] + [e];
      RecordedSnoc(drawn[1..], e, stratum, p);
    }
  }

  /** Ranks the members of a stratum and records the first of them; refused if there are too few. */
  method Draw(ghost entries: seq<Entry>, members: seq<Entry>, st: Stratum, rank: Ranking)
      returns (selections: Option<seq<Selection>>)
    requires members == Members(entries, st.cell) && st.sampleSize > 0
    ensures selections.Some? <==> st.sampleSize <= |members|
    ensures selections.Some? ==> selections.value == Sample(entries, st, rank)
  {
    if st.sampleSize > |members| {
      return None;
    }
    var ranked := StableSort(ByRank(rank, st.name), members);
    SortElements(ByRank(rank, st.name), members);
    SameLength(ranked, members);
    var probability := st.sampleSize as real / |members| as real;
    var selected := Record(ranked[..st.sampleSize], st.name, probability);
    return Some(selected);
  }

  method Record(drawn: seq<Entry>, stratum: string, probability: real) returns (selected: seq<Selection>)
    ensures selected == Recorded(drawn, stratum, probability)
  {
    selected := [];
    for i := 0 to |drawn|
      invariant selected == Recorded(drawn[..i], stratum, probability)
    {
      RecordedSnoc(drawn[..i], drawn[i], stratum, probability);
      PrefixNext(drawn, i);
      selected := selected + [Selection(drawn[i], stratum, probability)];
    }
    assert drawn[..|drawn|] == drawn;
  }

  lemma GroupOf(groups: map<string, seq<Entry>>, entries: seq<Entry>, strata: seq<Stratum>, i: nat)
    requires ValidPlan(strata) && Grouped(groups, entries, strata) && i < |strata|
    ensures strata[i].name in groups && groups[strata[i].name] == Members(entries, strata[i].cell)
    ensures strata[i].sampleSize > 0
    ensures Affordable(entries, strata) ==> strata[i].sampleSize <= |Members(entries, strata[i].cell)|
  {
    assert strata[i] in strata;
  }

  /** Draws from every group in the order of the plan; refused if one group is too small. */
  method DrawAll(entries: seq<Entry>, strata: seq<Stratum>, rank: Ranking, groups: map<string, seq<Entry>>)
      returns (selections: Option<seq<Selection>>)
    requires ValidPlan(strata)
    requires Grouped(groups, entries, strata)
    ensures selections.Some? <==> Affordable(entries, strata)
    ensures selections.Some? ==> selections.value == Selected(entries, strata, rank)
  {
    var selected: seq<Selection> := [];
    for i := 0 to |strata|
      invariant Affordable(entries, strata[..i]) && selected == Selected(entries, strata[..i], rank)
    {
      var st := strata[i];
      GroupOf(groups, entries, strata, i);
      var drawn := Draw(entries, groups[st.name], st, rank);
      if drawn.None? {
        return None;
      }
      AffordableSnoc(entries, strata[..i], st);
      SelectedSnoc(entries, strata[..i], st, rank);
      PrefixNext(strata, i);
      selected := selected + drawn.value;
    }
    assert strata[..|strata|] == strata;
    return Some(selected);
  }

  /** A frozen plan names the frame it was made for; a manifest names both. */
  datatype Plan = Plan(frame: string, strata: seq<Stratum>, createdAt: nat)

  datatype Manifest = Manifest(frame: string, plan: string, selections: seq<Selection>, createdAt: nat)

  /** The one manifest of a frame and a plan, if there is one. */
  function Derived(frame: string, entries: seq<Entry>, name: string, plan: Plan, rank: Ranking): Option<Manifest> {
    if plan.frame == frame && Derivable(entries, plan.strata) && Complete(Selected(entries, plan.strata, rank))
    then Some(Manifest(frame, name, Selected(entries, plan.strata, rank), plan.createdAt))
    else None
  }

  /** Groups the units, draws from the groups, and freezes what was drawn. */
  method Derive(frame: string, entries: seq<Entry>, name: string, plan: Plan, rank: Ranking)
      returns (manifest: Option<Manifest>)
    requires ValidFrame(entries) && ValidPlan(plan.strata)
    ensures manifest == Derived(frame, entries, name, plan, rank)
  {
    if plan.frame != frame {
      return None;
    }
    var groups := Group(entries, plan.strata);
    if groups.None? {
      return None;
    }
    var selected := DrawAll(entries, plan.strata, rank, groups.value);
    if selected.None? || !Complete(selected.value) {
      return None;
    }
    return Some(Manifest(frame, name, selected.value, plan.createdAt));
  }

  /** A manifest is valid only if it is the one that deriving again gives. */
  method Validate(frame: string, entries: seq<Entry>, name: string, plan: Plan, rank: Ranking, manifest: Manifest)
      returns (valid: bool)
    requires ValidFrame(entries) && ValidPlan(plan.strata)
    ensures valid <==> Derived(frame, entries, name, plan, rank) == Some(manifest)
  {
    var expected := Derive(frame, entries, name, plan, rank);
    return expected == Some(manifest);
  }

  /** Where a plan lists a stratum. */
  function Place(strata: seq<Stratum>, name: string): nat {
    if strata == [] || strata[0].name == name then 0 else 1 + Place(strata[1..], name)
  }

  /** The selections of a stratum come before those of later strata. */
  ghost predicate InPlanOrder(strata: seq<Stratum>, selections: seq<Selection>) {
    forall i, j | 0 <= i < j < |selections| ::
      Place(strata, selections[i].stratum) <= Place(strata, selections[j].stratum)
  }

  lemma {:induction false} RecordedStratum(drawn: seq<Entry>, stratum: string, p: real)
    ensures forall s <- Recorded(drawn, stratum, p) :: s.stratum == stratum
  {
    if drawn == [] {
    } else {
      RecordedStratum(drawn[1..], stratum, p);
    }
  }

  lemma JoinInOrder(strata: seq<Stratum>, first: seq<Selection>, later: seq<Selection>)
    requires strata != [] && (forall s <- first :: s.stratum == strata[0].name)
    requires InPlanOrder(strata[1..], later) && forall s <- later :: s.stratum != strata[0].name
    ensures InPlanOrder(strata, first + later)
  {
    var all := first + later;
    forall i, j | 0 <= i < j < |all|
      ensures Place(strata, all[i].stratum) <= Place(strata, all[j].stratum)
    {
      if i < |first| {
        assert all[i] in first;
      } else {
        assert all[i] == later[i - |first|] && all[j] == later[j - |first|];
        assert all[i] in later && all[j] in later;
      }
    }
  }

  function StrataNames(strata: seq<Stratum>): set<string> {
    set st <- strata :: st.name
  }

  lemma FirstNameIsNew(strata: seq<Stratum>)
    requires strata != [] && forall i, j | 0 <= i < j < |strata| :: strata[i].name != strata[j].name
    ensures strata[0].name !in StrataNames(strata[1..])
    ensures StrataNames(strata) == {strata[0].name} + StrataNames(strata[1..])
    ensures forall i, j | 0 <= i < j < |strata[1..]| :: strata[1..][i].name != strata[1..][j].name
  {
    assert forall k | 0 <= k < |strata[1..]| :: strata[1..][k] == strata[k + 1];
    assert strata == [strata[0]] + strata[1..];
  }

  lemma {:induction false} SelectedInPlanOrder(entries: seq<Entry>, strata: seq<Stratum>, rank: Ranking)
    requires Affordable(entries, strata)
    requires forall i, j | 0 <= i < j < |strata| :: strata[i].name != strata[j].name
    ensures InPlanOrder(strata, Selected(entries, strata, rank))
    ensures forall s <- Selected(entries, strata, rank) :: s.stratum in StrataNames(strata)
  {
    if strata == [] {
    } else {
      var first, later := Sample(entries, strata[0], rank), Selected(entries, strata[1..], rank);
      FirstNameIsNew(strata);
      SelectedInPlanOrder(entries, strata[1..], rank);
      RecordedStratum(Drawn(entries, strata[0], rank), strata[0].name, Probability(entries, strata[0]));
      JoinInOrder(strata, first, later);
    }
  }

  /**
   Whoever writes a manifest, one that is accepted holds distinct units of the frame in the order of
   the plan, with probabilities whose inverses add up to the population; and the same frame and plan
   accept no other.
   */
  lemma AcceptedIsRepresentative(frame: string, entries: seq<Entry>, name: string, plan: Plan, rank: Ranking,
      manifest: Manifest)
    requires ValidFrame(entries) && ValidPlan(plan.strata)
    requires Derived(frame, entries, name, plan, rank) == Some(manifest)
    ensures Ordered(ApartSelections, manifest.selections)
    ensures forall s <- manifest.selections :: s.entry in entries && 0.0 < s.probability <= 1.0
    ensures Weighted(One, manifest.selections) == |entries| as real
    ensures InPlanOrder(plan.strata, manifest.selections)
    ensures forall other :: Derived(frame, entries, name, plan, rank) == Some(other) ==> other == manifest
  {
    assert Ordered(Apart, entries);
    SelectedInPlanOrder(entries, plan.strata, rank);
    SelectedAreApart(entries, plan.strata, rank);
    SelectedProbability(entries, plan.strata, rank);
    WeightsAddUp(entries, plan.strata, rank);
  }
}
