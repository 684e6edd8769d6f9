/** The estimates of a paired study: rates of its arms, differences between them, bootstrap intervals. */
module Statistics {
  import opened Text
  import opened Sorting
  import opened Lists
  import opened Study

  // ---------- percentiles ----------

  /** `int` of a nonnegative number. */
  function Whole(x: real): nat
    requires x >= 0.0
  {
    x.Floor
  }

  lemma NonnegativeProduct(x: real, y: real)
    requires x >= 0.0 && y >= 0.0
    ensures x * y >= 0.0
  {}

  lemma BoundedProduct(m: real, f: real) returns (p: real)
    requires m >= 0.0 && 0.0 <= f <= 1.0
    ensures p == m * f && 0.0 <= p <= m
  {
    p := m * f;
    NonnegativeProduct(m, f);
    NonnegativeProduct(m, 1.0 - f);
    assert m * (1.0 - f) == m - m * f;
  }

  lemma Slope(d: real, f: real, g: real)
    requires d >= 0.0 && f <= g
    ensures d * f <= d * g
  {
    NonnegativeProduct(d, g - f);
    assert d * (g - f) == d * g - d * f;
  }

  lemma PositionBounds(m: real, f: real)
    requires m >= 0.0 && 0.0 <= f <= 1.0
    ensures 0.0 <= m * f <= m
  {
    var p := BoundedProduct(m, f);
  }

  lemma PositionRises(n: nat, f: real, g: real)
    requires n > 0 && 0.0 <= f <= g <= 1.0
    ensures Position(n, f) <= Position(n, g)
  {
    Slope((n - 1) as real, f, g);
  }

  function Position(n: nat, fraction: real): (x: real)
    requires n > 0 && 0.0 <= fraction <= 1.0
    ensures 0.0 <= x <= (n - 1) as real
  {
    PositionBounds((n - 1) as real, fraction);
    (n - 1) as real * fraction
  }

  function Mix(lo: real, hi: real, f: real): real {
    lo + (hi - lo) * f
  }

  function Upper(n: nat, x: real): nat
    requires n > 0 && 0.0 <= x <= (n - 1) as real
  {
    if Whole(x) + 1 <= n - 1 then Whole(x) + 1 else n - 1
  }

  /** Linear interpolation in a sorted list. */
  function At(sorted: seq<real>, x: real): real
    requires sorted != [] && 0.0 <= x <= (|sorted| - 1) as real
  {
    Mix(sorted[Whole(x)], sorted[Upper(|sorted|, x)], x - Whole(x) as real)
  }

  function Smaller(): (real, real) -> bool {
    (a: real, b: real) => a < b
  }

  lemma SortLength(values: seq<real>)
    ensures |StableSort(Smaller(), values)| == |values|
    ensures forall v :: v in StableSort(Smaller(), values) <==> v in values
  {
    var sorted := StableSort(Smaller(), values);
    SortElements(Smaller(), values);
    assert |multiset(sorted)| == |multiset(values)|;
    forall v
      ensures v in sorted <==> v in values
    {
      assert v in multiset(sorted) <==> v in multiset(values);
    }
  }

  /** `_percentile`. */
  function Percentile(values: seq<real>, fraction: real): real
    requires values != [] && 0.0 <= fraction <= 1.0
  {
    SortLength(values);
    At(StableSort(Smaller(), values), Position(|values|, fraction))
  }

  ghost predicate Rising(s: seq<real>) {
    forall i, j | 0 <= i <= j < |s| :: s[i] <= s[j]
  }

  lemma MixIsBetween(lo: real, hi: real, f: real)
    requires lo <= hi && 0.0 <= f <= 1.0
    ensures lo <= Mix(lo, hi, f) <= hi
  {
    var p := BoundedProduct(hi - lo, f);
  }

  lemma MixRises(lo: real, hi: real, f: real, g: real)
    requires lo <= hi && f <= g
    ensures Mix(lo, hi, f) <= Mix(lo, hi, g)
  {
    Slope(hi - lo, f, g);
  }

  lemma AtIsBetween(s: seq<real>, x: real)
    requires s != [] && Rising(s) && 0.0 <= x <= (|s| - 1) as real
    ensures s[Whole(x)] <= At(s, x) <= s[Upper(|s|, x)]
  {
    MixIsBetween(s[Whole(x)], s[Upper(|s|, x)], x - Whole(x) as real);
  }

  lemma AtIsMonotone(s: seq<real>, x: real, y: real)
    requires s != [] && Rising(s) && 0.0 <= x <= y <= (|s| - 1) as real
    ensures At(s, x) <= At(s, y)
  {
    AtIsBetween(s, x);
    AtIsBetween(s, y);
    var i, j := Whole(x), Whole(y);
    assert i <= j;
    if i == j {
      MixRises(s[i], s[Upper(|s|, x)], x - i as real, y - i as real);
    } else {
      assert s[Upper(|s|, x)] <= s[j];
    }
  }

  lemma SortedRises(values: seq<real>)
    ensures Rising(StableSort(Smaller(), values))
  {
    var before, any := Smaller(), (a: real, b: real) => true;
    assert StrictWeak(before);
    assert Ordered(any, values);
    StableSortIsLexicographic(before, any, values);
    var s := StableSort(before, values);
    forall i, j | 0 <= i <= j < |s|
      ensures s[i] <= s[j]
    {
      if i < j {
        ThenMeaning(before, any, s[i], s[j]);
      }
    }
  }

  /** Percentiles rise with the fraction, so that every percentile interval is ordered. */
  lemma PercentilesAreOrdered(values: seq<real>, f: real, g: real)
    requires values != [] && 0.0 <= f <= g <= 1.0
    ensures Percentile(values, f) <= Percentile(values, g)
  {
    SortLength(values);
    SortedRises(values);
    PositionRises(|values|, f, g);
    AtIsMonotone(StableSort(Smaller(), values), Position(|values|, f), Position(|values|, g));
  }

  ghost predicate Within(values: seq<real>, lo: real, hi: real) {
    forall v <- values :: lo <= v <= hi
  }

  /** A percentile lies between any bounds of the values. */
  lemma PercentileIsWithin(values: seq<real>, f: real, lo: real, hi: real)
    requires values != [] && 0.0 <= f <= 1.0 && Within(values, lo, hi)
    ensures lo <= Percentile(values, f) <= hi
  {
    var s, x := StableSort(Smaller(), values), Position(|values|, f);
    SortLength(values);
    SortedRises(values);
    AtIsBetween(s, x);
    assert s[Whole(x)] in s && s[Upper(|s|, x)] in s;
  }

  // ---------- means ----------

  function Same(x: real): real {
    x
  }

  function Mean(values: seq<real>): real
    requires values != []
  {
    Sum(Same, values) / |values| as real
  }

  lemma QuotientIsBetween(t: real, n: real, lo: real, hi: real)
    requires n > 0.0 && lo * n <= t <= hi * n
    ensures lo <= t / n <= hi
  {
    var q := t / n;
    assert q * n == t;
    assert (q - lo) * n == q * n - lo * n;
    assert (hi - q) * n == hi * n - q * n;
    Sign(q - lo, n);
    Sign(hi - q, n);
  }

  lemma Sign(x: real, n: real)
    requires n > 0.0 && x * n >= 0.0
    ensures x >= 0.0
  {
    if x < 0.0 {
      Gap(-x, n);
    }
  }

  lemma Gap(x: real, n: real)
    requires x > 0.0 && n > 0.0
    ensures x * n > 0.0
  {}

  lemma MeanIsWithin<T>(f: T -> real, s: seq<T>, lo: real, hi: real)
    requires s != [] && forall x <- s :: lo <= f(x) <= hi
    ensures lo <= Sum(f, s) / |s| as real <= hi
  {
    SumBounds(f, s, lo, hi);
    QuotientIsBetween(Sum(f, s), |s| as real, lo, hi);
  }

  // ---------- groups of values by family ----------

  /** A value of the metric with the family it belongs to. */
  datatype Valued = Valued(family: string, value: real)

  type Groups = map<string, seq<real>>

  function ValueOf(v: Valued): real {
    v.value
  }

  function Group(groups: Groups, family: string): seq<real> {
    if family in groups then groups[family] else []
  }

  function Added(groups: Groups, v: Valued): Groups {
    groups[v.family := Group(groups, v.family) + [v.value]]
  }

  function Families(items: seq<Valued>): set<string> {
    set v <- items :: v.family
  }

  /** The values by family, each family's in the order of the list. */
  ghost function GroupsOf(items: seq<Valued>): Groups {
    if items == [] then map[] else Added(GroupsOf(items[..|items| - 1]), items[|items| - 1])
  }

  lemma GroupsNext(items: seq<Valued>, v: Valued)
    ensures GroupsOf(items + [v]) == Added(GroupsOf(items), v)
  {
    assert (items + [v])[..|items|] == items;
  }

  lemma {:induction false} SomeGroup(items: seq<Valued>)
    ensures (GroupsOf(items) == map[]) == (items == [])
  {
    if items == [] {
    } else {
      assert items[|items| - 1].family in GroupsOf(items);
    }
  }

  lemma {:induction false} GroupsHaveFamilies(items: seq<Valued>)
    ensures GroupsOf(items).Keys == Families(items)
  {
    if items == [] {
    } else {
      GroupsHaveFamilies(items[..|items| - 1]);
      LastRejoins(items);
      assert Families(items) == Families(items[..|items| - 1]) + {items[|items| - 1].family};
    }
  }

  function GroupSum(groups: Groups): string -> real {
    family => Sum(Same, Group(groups, family))
  }

  function GroupSize(groups: Groups): string -> real {
    family => |Group(groups, family)| as real
  }

  /** The order in which the families appear. */
  ghost function Appearance(items: seq<Valued>): seq<string> {
    if items == [] then []
    else
      var before, v := items[..|items| - 1], items[|items| - 1];
      if v.family in GroupsOf(before) then Appearance(before) else Appearance(before) + [v.family]
  }

  lemma {:induction false} AppearanceMeaning(items: seq<Valued>)
    ensures Distinct(Appearance(items))
    ensures forall family :: family in Appearance(items) <==> family in GroupsOf(items)
    ensures forall family <- GroupsOf(items) :: GroupsOf(items)[family] != []
  {
    if items == [] {
    } else {
      AppearanceMeaning(items[..|items| - 1]);
    }
  }

  /** Adding a value to a group adds it to the sum over the families that are listed, if its family is one. */
  lemma SumsGrow(groups: Groups, families: seq<string>, v: Valued)
    requires Distinct(families) && v.family in families
    ensures Sum(GroupSum(Added(groups, v)), families) == Sum(GroupSum(groups), families) + v.value
    ensures Sum(GroupSize(Added(groups, v)), families) == Sum(GroupSize(groups), families) + 1.0
  {
    var next := Added(groups, v);
    var i :| 0 <= i < |families| && families[i] == v.family;
    var others := Without(families, i);
    DistinctWithout(families, i);
    SumOne(Same, Group(groups, v.family), v.value);
    SumWithout(GroupSum(next), families, i);
    SumWithout(GroupSum(groups), families, i);
    SumAgrees(GroupSum(next), GroupSum(groups), others);
    SumWithout(GroupSize(next), families, i);
    SumWithout(GroupSize(groups), families, i);
    SumAgrees(GroupSize(next), GroupSize(groups), others);
  }

  /** Adding a value adds it to the sum over all families, of which there may then be one more. */
  lemma GroupGrows(groups: Groups, families: seq<string>, v: Valued)
    requires Distinct(families) && forall family :: family in families <==> family in groups
    ensures var next := if v.family in groups then families else families + [v.family];
            && Sum(GroupSum(Added(groups, v)), next) == Sum(GroupSum(groups), families) + v.value
            && Sum(GroupSize(Added(groups, v)), next) == Sum(GroupSize(groups), families) + 1.0
  {
    if v.family in groups {
      SumsGrow(groups, families, v);
    } else {
      SumOne(GroupSum(groups), families, v.family);
      SumOne(GroupSize(groups), families, v.family);
      SumsGrow(groups, families + [v.family], v);
    }
  }

  /** No value is lost: the groups have as many values as the list, and the same sum. */
  ghost predicate Keeps(groups: Groups, families: seq<string>, items: seq<Valued>) {
    && Sum(GroupSum(groups), families) == Sum(ValueOf, items)
    && Sum(GroupSize(groups), families) == |items| as real
  }

  lemma KeepsNext(groups: Groups, families: seq<string>, items: seq<Valued>, v: Valued)
    requires Distinct(families) && (forall family :: family in families <==> family in groups)
    requires Keeps(groups, families, items)
    ensures Keeps(Added(groups, v), if v.family in groups then families else families + [v.family], items + [v])
  {
    GroupGrows(groups, families, v);
    SumOne(ValueOf, items, v);
  }

  lemma {:induction false} GroupingKeeps(items: seq<Valued>)
    ensures Keeps(GroupsOf(items), Appearance(items), items)
  {
    if items == [] {
    } else {
      var before, v := items[..|items| - 1], items[|items| - 1];
      GroupingKeeps(before);
      AppearanceMeaning(before);
      KeepsNext(GroupsOf(before), Appearance(before), before, v);
      LastRejoins(items);
    }
  }

  /** In whatever order the families are listed. */
  lemma GroupingKeepsAll(items: seq<Valued>, families: seq<string>)
    requires Distinct(families) && forall family :: family in families <==> family in GroupsOf(items)
    ensures Sum(GroupSum(GroupsOf(items)), families) == Sum(ValueOf, items)
    ensures Sum(GroupSize(GroupsOf(items)), families) == |items| as real
  {
    var groups, order := GroupsOf(items), Appearance(items);
    AppearanceMeaning(items);
    GroupingKeeps(items);
    SumPermuted(GroupSum(groups), families, order);
    SumPermuted(GroupSize(groups), families, order);
  }

  /** All values, family after family. */
  function Flatten(groups: Groups, families: seq<string>): seq<real> {
    if families == [] then [] else Group(groups, families[0]) + Flatten(groups, families[1..])
  }

  lemma {:induction false} FlattenSums(groups: Groups, families: seq<string>)
    ensures Sum(Same, Flatten(groups, families)) == Sum(GroupSum(groups), families)
    ensures |Flatten(groups, families)| as real == Sum(GroupSize(groups), families)
  {
    if families == [] {
    } else {
      FlattenSums(groups, families[1..]);
      SumAppend(Same, Group(groups, families[0]), Flatten(groups, families[1..]));
    }
  }

  ghost predicate AllWithin(groups: Groups, lo: real, hi: real) {
    forall family <- groups :: Within(groups[family], lo, hi)
  }

  lemma {:induction false} FlattenWithin(groups: Groups, families: seq<string>, lo: real, hi: real)
    requires AllWithin(groups, lo, hi)
    ensures Within(Flatten(groups, families), lo, hi)
  {
    if families == [] {
    } else {
      FlattenWithin(groups, families[1..], lo, hi);
    }
  }

  lemma {:induction false} GroupsWithin(items: seq<Valued>, lo: real, hi: real)
    requires forall v <- items :: lo <= v.value <= hi
    ensures AllWithin(GroupsOf(items), lo, hi)
  {
    if items == [] {
    } else {
      GroupsWithin(items[..|items| - 1], lo, hi);
    }
  }

  // ---------- estimates ----------

  function GroupMean(groups: Groups): string -> real {
    family => if Group(groups, family) == [] then 0.0 else Mean(Group(groups, family))
  }

  /** The mean of the family means. */
  ghost function FamilyMean(groups: Groups): real
    requires groups != map[]
  {
    Sum(GroupMean(groups), Sorted(groups.Keys)) / |groups| as real
  }

  /** When all families have the same number of values, both weightings are the same. */
  lemma BalancedWeightsAgree(items: seq<Valued>, size: nat)
    requires items != [] && size > 0 && forall family <- GroupsOf(items) :: |GroupsOf(items)[family]| == size
    ensures GroupsOf(items) != map[]
    ensures FamilyMean(GroupsOf(items)) == Sum(ValueOf, items) / |items| as real
  {
    var groups := GroupsOf(items);
    SomeGroup(items);
    SortedDistinct(groups.Keys);
    GroupingKeepsAll(items, Sorted(groups.Keys));
    SizesAgree(groups, Sorted(groups.Keys), size);
    MeanOfQuotients(GroupMean(groups), GroupSum(groups), GroupSize(groups), Sorted(groups.Keys), size as real);
  }

  lemma SizesAgree(groups: Groups, families: seq<string>, size: nat)
    requires size > 0 && forall family <- families :: |Group(groups, family)| == size
    ensures forall family <- families ::
              && GroupSize(groups)(family) == size as real
              && GroupMean(groups)(family) == GroupSum(groups)(family) / size as real
  {}

  lemma MeanOfQuotients<T>(f: T -> real, g: T -> real, h: T -> real, s: seq<T>, k: real)
    requires s != [] && k > 0.0 && forall x <- s :: h(x) == k && f(x) == g(x) / k
    ensures Sum(h, s) > 0.0 && Sum(f, s) / |s| as real == Sum(g, s) / Sum(h, s)
  {
    SumBounds(h, s, k, k);
    SumScaled(f, g, s, k);
    Requotient(Sum(f, s), Sum(g, s), Sum(h, s), k, |s| as real);
  }

  lemma Requotient(m: real, t: real, z: real, k: real, n: real)
    requires k > 0.0 && n > 0.0 && m == t / k && z == k * n
    ensures z > 0.0 && m / n == t / z
  {
    DivideTwice(t, k, n);
  }

  lemma {:induction false} SumScaled<T>(f: T -> real, g: T -> real, s: seq<T>, k: real)
    requires k > 0.0 && forall x <- s :: f(x) == g(x) / k
    ensures Sum(f, s) == Sum(g, s) / k
  {
    if s == [] {
    } else {
      SumScaled(f, g, s[1..], k);
      AddDivide(g(s[0]), Sum(g, s[1..]), k);
    }
  }

  lemma AddDivide(a: real, b: real, k: real)
    requires k > 0.0
    ensures (a + b) / k == a / k + b / k
  {}

  lemma DivideTwice(t: real, k: real, n: real)
    requires k > 0.0 && n > 0.0
    ensures k * n > 0.0 && t / k / n == t / (k * n)
  {
    Gap(k, n);
    var q := t / k / n;
    assert q * n == t / k && t / k * k == t;
    assert q * (k * n) == (q * n) * k;
    Quotient(t, k * n, q);
  }

  lemma Quotient(t: real, d: real, q: real)
    requires d > 0.0 && q * d == t
    ensures t / d == q
  {}

  datatype Population = AllAssigned | ValidOnly

  datatype Rate =
    | ArmRate(arm: Arm, population: Population)
    | PairedRate(left: Arm, right: Arm, weighted: bool, population: Population)

  predicate ByFamily(rate: Rate) {
    rate.PairedRate? && rate.weighted
  }

  datatype Estimated = Estimated(
    rate: Rate, estimate: Option<real>, lower: Option<real>, upper: Option<real>, sampleSize: nat)

  /** The checks of every published metric. */
  predicate Bounds(m: Estimated) {
    && (m.sampleSize == 0 ==> m.estimate.None? && m.lower.None? && m.upper.None?)
    && (m.lower.Some? && m.upper.Some? ==> m.lower.value <= m.upper.value)
  }

  ghost function SampleSize(rate: Rate, items: seq<Valued>): nat {
    if ByFamily(rate) then |Families(items)| else |items|
  }

  ghost function Estimation(rate: Rate, items: seq<Valued>): Option<real> {
    SomeGroup(items);
    if items == [] then None
    else if ByFamily(rate) then Some(FamilyMean(GroupsOf(items)))
    else Some(MeanOf(items))
  }

  function MeanOf(items: seq<Valued>): real
    requires items != []
  {
    Sum(ValueOf, items) / |items| as real
  }

  /** The least value a metric can have; the greatest is one. */
  function Low(rate: Rate): real {
    if rate.ArmRate? then 0.0 else -1.0
  }

  predicate InRange(rate: Rate, x: Option<real>) {
    x.Some? ==> Low(rate) <= x.value <= 1.0
  }

  /** The estimate and both bounds are rates, or differences of rates. */
  predicate IsRate(m: Estimated) {
    InRange(m.rate, m.estimate) && InRange(m.rate, m.lower) && InRange(m.rate, m.upper)
  }

  /** A metric over some values passes its own checks, estimates their mean, and has an interval for two families. */
  ghost predicate Reports(m: Estimated, rate: Rate, items: seq<Valued>) {
    && m.rate == rate && Bounds(m)
    && m.estimate == Estimation(rate, items) && m.sampleSize == SampleSize(rate, items)
    && m.lower.Some? == m.upper.Some? == (|Families(items)| >= 2)
  }

  lemma Join<T>(a: seq<T>, x: T, b: seq<T>)
    ensures a + ([x] + b) == a + [x] + b
  {}

  lemma SortedDistinct(keys: set<string>)
    ensures Distinct(Sorted(keys))
  {
    var s := Sorted(keys);
    SortedAscends(keys);
    forall i, j | 0 <= i < j < |s|
      ensures s[i] != s[j]
    {
      LessIrreflexive(s[i]);
    }
  }

  method SortedFamilies(keys: set<string>) returns (families: seq<string>)
    ensures families == Sorted(keys)
  {
    families := [];
    var rest := keys;
    while rest != {}
      invariant rest <= keys && families + Sorted(rest) == Sorted(keys)
      decreases |rest|
    {
      var next := FindLeast(rest);
      Join(families, next, Sorted(rest - {next}));
      families := families + [next];
      rest := rest - {next};
    }
    assert Sorted(rest) == [] && families + [] == families;
  }

  /** The number drawn for a seed, a resample and a position; it is reduced to the range asked for. */
  type Generator = (nat, nat, nat) -> nat

  /** The families drawn for one resample. */
  function Drawn(families: seq<string>, generator: Generator, seed: nat, k: nat): seq<string>
    requires families != []
  {
    seq(|families|, i requires 0 <= i < |families| => families[generator(seed, k, i) % |families|])
  }

  function Resample(groups: Groups, drawn: seq<string>, weighted: bool): real
    requires drawn != [] && Group(groups, drawn[0]) != []
  {
    if weighted then Sum(GroupMean(groups), drawn) / |drawn| as real else Mean(Flatten(groups, drawn))
  }

  lemma ResampleIsWithin(groups: Groups, drawn: seq<string>, weighted: bool, lo: real, hi: real)
    requires drawn != [] && (forall family <- drawn :: Group(groups, family) != []) && AllWithin(groups, lo, hi)
    ensures lo <= Resample(groups, drawn, weighted) <= hi
  {
    if weighted {
      forall family <- drawn
        ensures lo <= GroupMean(groups)(family) <= hi
      {
        MeanIsWithin(Same, Group(groups, family), lo, hi);
      }
      MeanIsWithin(GroupMean(groups), drawn, lo, hi);
    } else {
      FlattenWithin(groups, drawn, lo, hi);
      MeanIsWithin(Same, Flatten(groups, drawn), lo, hi);
    }
  }

  /** What a bootstrap draws from: a seeded generator, so many times. */
  datatype Bootstrap = Bootstrap(seed: nat, resamples: nat, generator: Generator)

  ghost predicate NoneEmpty(groups: Groups) {
    forall family <- groups :: groups[family] != []
  }

  /** The first `k` resampled means. */
  ghost function Samples(groups: Groups, weighted: bool, boot: Bootstrap, k: nat): (s: seq<real>)
    requires NoneEmpty(groups) && groups != map[]
    ensures |s| == k
  {
    if k == 0 then []
    else
      var families := Sorted(groups.Keys);
      DrawnAreGroups(groups, families, boot.generator, boot.seed, k - 1);
      Samples(groups, weighted, boot, k - 1) +
      [Resample(groups, Drawn(families, boot.generator, boot.seed, k - 1), weighted)]
  }

  /** The percentile interval of the resampled means; none with fewer than two families. */
  ghost function Interval(groups: Groups, weighted: bool, boot: Bootstrap): Option<(real, real)>
    requires NoneEmpty(groups) && boot.resamples > 0
  {
    if |groups| < 2 then None
    else
      var samples := Samples(groups, weighted, boot, boot.resamples);
      Some((Percentile(samples, 0.025), Percentile(samples, 0.975)))
  }

  lemma SamplesNext(groups: Groups, weighted: bool, boot: Bootstrap, k: nat)
    requires NoneEmpty(groups) && groups != map[]
    ensures var drawn := Drawn(Sorted(groups.Keys), boot.generator, boot.seed, k);
            && drawn != [] && Group(groups, drawn[0]) != []
            && Samples(groups, weighted, boot, k + 1) ==
               Samples(groups, weighted, boot, k) + [Resample(groups, drawn, weighted)]
  {
    DrawnAreGroups(groups, Sorted(groups.Keys), boot.generator, boot.seed, k);
  }

  lemma NextIsWithin(groups: Groups, weighted: bool, boot: Bootstrap, k: nat, lo: real, hi: real)
    requires NoneEmpty(groups) && groups != map[] && AllWithin(groups, lo, hi)
    ensures var drawn := Drawn(Sorted(groups.Keys), boot.generator, boot.seed, k);
            drawn != [] && Group(groups, drawn[0]) != [] && lo <= Resample(groups, drawn, weighted) <= hi
  {
    DrawnAreGroups(groups, Sorted(groups.Keys), boot.generator, boot.seed, k);
    ResampleIsWithin(groups, Drawn(Sorted(groups.Keys), boot.generator, boot.seed, k), weighted, lo, hi);
  }

  lemma WithinNext(s: seq<real>, x: real, lo: real, hi: real)
    requires Within(s, lo, hi) && lo <= x <= hi
    ensures Within(s + [x], lo, hi)
  {}

  lemma {:induction false} SamplesAreWithin(groups: Groups, weighted: bool, boot: Bootstrap, k: nat, lo: real, hi: real)
    requires NoneEmpty(groups) && groups != map[] && AllWithin(groups, lo, hi)
    ensures Within(Samples(groups, weighted, boot, k), lo, hi)
  {
    if k == 0 {
    } else {
      var drawn := Drawn(Sorted(groups.Keys), boot.generator, boot.seed, k - 1);
      SamplesAreWithin(groups, weighted, boot, k - 1, lo, hi);
      NextIsWithin(groups, weighted, boot, k - 1, lo, hi);
      SamplesNext(groups, weighted, boot, k - 1);
      WithinNext(Samples(groups, weighted, boot, k - 1), Resample(groups, drawn, weighted), lo, hi);
    }
  }

  /** The interval is ordered and stays within any bounds of the values. */
  lemma IntervalIsOrdered(groups: Groups, weighted: bool, boot: Bootstrap, lo: real, hi: real)
    requires NoneEmpty(groups) && boot.resamples > 0 && AllWithin(groups, lo, hi)
    ensures var i := Interval(groups, weighted, boot); i.Some? ==> lo <= i.value.0 <= i.value.1 <= hi
  {
    if |groups| >= 2 {
      var samples := Samples(groups, weighted, boot, boot.resamples);
      SamplesAreWithin(groups, weighted, boot, boot.resamples, lo, hi);
      PercentilesAreOrdered(samples, 0.025, 0.975);
      PercentileIsWithin(samples, 0.025, lo, hi);
      PercentileIsWithin(samples, 0.975, lo, hi);
    }
  }

  method DrawSamples(groups: Groups, families: seq<string>, weighted: bool, boot: Bootstrap)
    returns (samples: seq<real>)
    requires NoneEmpty(groups) && groups != map[] && families == Sorted(groups.Keys)
    ensures samples == Samples(groups, weighted, boot, boot.resamples)
  {
    samples := [];
    for k := 0 to boot.resamples
      invariant samples == Samples(groups, weighted, boot, k)
    {
      SamplesNext(groups, weighted, boot, k);
      var drawn := Drawn(families, boot.generator, boot.seed, k);
      samples := samples + [Resample(groups, drawn, weighted)];
    }
  }

  /** `_cluster_interval`. */
  method ClusterInterval(groups: Groups, weighted: bool, boot: Bootstrap) returns (interval: Option<(real, real)>)
    requires NoneEmpty(groups) && boot.resamples > 0
    ensures interval == Interval(groups, weighted, boot)
  {
    var families := SortedFamilies(groups.Keys);
    if |families| < 2 {
      return None;
    }
    var samples := DrawSamples(groups, families, weighted, boot);
    return Some((Percentile(samples, 0.025), Percentile(samples, 0.975)));
  }

  lemma DrawnAreGroups(groups: Groups, families: seq<string>, generator: Generator, seed: nat, k: nat)
    requires families == Sorted(groups.Keys) && families != []
    requires NoneEmpty(groups)
    ensures Drawn(families, generator, seed, k) != []
    ensures forall family <- Drawn(families, generator, seed, k) :: Group(groups, family) != []
  {
    forall family <- Drawn(families, generator, seed, k)
      ensures Group(groups, family) != []
    {
      var i :| 0 <= i < |families| && Drawn(families, generator, seed, k)[i] == family;
      assert family == families[generator(seed, k, i) % |families|];
      assert family in families;
    }
  }

  /** All values of all families are those of the list. */
  lemma FlattenAll(items: seq<Valued>)
    ensures var values := Flatten(GroupsOf(items), Sorted(GroupsOf(items).Keys));
            |values| == |items| && Sum(Same, values) == Sum(ValueOf, items)
    ensures items != [] ==> GroupsOf(items) != map[]
  {
    var groups := GroupsOf(items);
    SortedDistinct(groups.Keys);
    GroupingKeepsAll(items, Sorted(groups.Keys));
    FlattenSums(groups, Sorted(groups.Keys));
    SomeGroup(items);
  }

  lemma GroupsAreFit(rate: Rate, items: seq<Valued>)
    requires forall v <- items :: Low(rate) <= v.value <= 1.0
    ensures AllWithin(GroupsOf(items), Low(rate), 1.0)
    ensures NoneEmpty(GroupsOf(items))
  {
    AppearanceMeaning(items);
    GroupsWithin(items, Low(rate), 1.0);
  }

  /** The published bounds are those of the bootstrap of the values. */
  ghost predicate HasInterval(m: Estimated, items: seq<Valued>, boot: Bootstrap)
    requires boot.resamples > 0
  {
    AppearanceMeaning(items);
    var i := Interval(GroupsOf(items), ByFamily(m.rate), boot);
    && m.lower == (if i.Some? then Some(i.value.0) else None)
    && m.upper == (if i.Some? then Some(i.value.1) else None)
  }

  /** `_estimate`; the metric is refused if it fails its own checks. */
  method Estimate(rate: Rate, groups: Groups, size: nat, boot: Bootstrap, ghost items: seq<Valued>)
    returns (m: Option<Estimated>)
    requires groups == GroupsOf(items) && size == SampleSize(rate, items) && boot.resamples > 0
    requires forall v <- items :: Low(rate) <= v.value <= 1.0
    ensures m.Some? && Reports(m.value, rate, items) && IsRate(m.value) && HasInterval(m.value, items, boot)
  {
    var families := SortedFamilies(groups.Keys);
    FlattenAll(items);
    GroupsHaveFamilies(items);
    GroupsAreFit(rate, items);
    EstimationInRange(rate, items);
    var values := Flatten(groups, families);
    if values == [] {
      SomeGroup(items);
      return Some(Estimated(rate, None, None, None, 0));
    }
    var estimate := if ByFamily(rate) then Sum(GroupMean(groups), families) / |groups| as real else Mean(values);
    var interval := ClusterInterval(groups, ByFamily(rate), boot);
    IntervalIsOrdered(groups, ByFamily(rate), boot, Low(rate), 1.0);
    var lower := if interval.Some? then Some(interval.value.0) else None;
    var upper := if interval.Some? then Some(interval.value.1) else None;
    var built := Estimated(rate, Some(estimate), lower, upper, size);
    return if Bounds(built) then Some(built) else None;
  }

  lemma EstimationInRange(rate: Rate, items: seq<Valued>)
    requires forall v <- items :: Low(rate) <= v.value <= 1.0
    ensures InRange(rate, Estimation(rate, items))
  {
    var groups := GroupsOf(items);
    SomeGroup(items);
    if items == [] {
    } else if ByFamily(rate) {
      AppearanceMeaning(items);
      GroupsWithin(items, Low(rate), 1.0);
      ResampleIsWithin(groups, Sorted(groups.Keys), true, Low(rate), 1.0);
    } else {
      MeanIsWithin(ValueOf, items, Low(rate), 1.0);
    }
  }
}
