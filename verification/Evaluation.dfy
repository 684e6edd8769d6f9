/** The summary of a paired study: the counts and rates of both arms, and the comparisons between them. */
module Evaluation {
  import opened Text
  import opened Lists
  import opened Study
  import opened Statistics

  // ---------- results by unit ----------

  /** The results of a unit, in the order of the roster. */
  function ResultsOf(trials: seq<Trial>, ledger: Ledger, u: Metered): seq<Outcome> {
    if trials == [] then [] else Result(trials[0], ledger, u) + ResultsOf(trials[1..], ledger, u)
  }

  function Result(t: Trial, ledger: Ledger, u: Metered): seq<Outcome> {
    if UnitOf(t) == u && t.id in ledger then [ledger[t.id]] else []
  }

  lemma {:induction false} ResultsSnoc(trials: seq<Trial>, t: Trial, ledger: Ledger, u: Metered)
    ensures ResultsOf(trials + [t], ledger, u) == ResultsOf(trials, ledger, u) + Result(t, ledger, u)
  {
    if trials == [] {
      assert (trials + [t])[1..] == [];
    } else {
      assert (trials + [t])[1..] == trials[1..] + [t];
      ResultsSnoc(trials[1..], t, ledger, u);
    }
  }

  lemma {:induction false} ResultsCount(trials: seq<Trial>, ledger: Ledger, u: Metered)
    requires forall t <- trials :: t.id in ledger
    ensures |ResultsOf(trials, ledger, u)| == |EpisodesOf(trials, u)|
  {
    if trials == [] {
    } else {
      ResultsCount(trials[1..], ledger, u);
    }
  }

  lemma {:induction false} ResultsFamily(
    trials: seq<Trial>, ledger: Ledger, families: map<string, string>, u: Metered, r: Outcome)
    requires forall t <- trials :: t.id in ledger && t.task in families && ledger[t.id].family == families[t.task]
    requires r in ResultsOf(trials, ledger, u)
    ensures u.task in families && r.family == families[u.task]
  {
    if trials == [] {
    } else {
      assert trials[0] in trials;
      if r in ResultsOf(trials[1..], ledger, u) {
        ResultsFamily(trials[1..], ledger, families, u, r);
      }
    }
  }

  type Grouped = map<Metered, seq<Outcome>>

  /** Every unit with results has exactly those, in roster order. */
  ghost predicate IsGrouping(grouped: Grouped, trials: seq<Trial>, ledger: Ledger) {
    forall u: Metered ::
      if u in grouped then grouped[u] == ResultsOf(trials, ledger, u) != [] else ResultsOf(trials, ledger, u) == []
  }

  ghost predicate Indexes<K(!new), V>(order: seq<K>, index: map<K, V>) {
    Distinct(order) && forall k :: k in order <==> k in index
  }

  function Filed(grouped: Grouped, u: Metered, r: Outcome): Grouped {
    grouped[u := (if u in grouped then grouped[u] else []) + [r]]
  }

  function Seen(order: seq<Metered>, grouped: Grouped, u: Metered): seq<Metered> {
    if u in grouped then order else order + [u]
  }

  lemma IndexNext(order: seq<Metered>, grouped: Grouped, u: Metered, r: Outcome)
    requires Indexes(order, grouped)
    ensures Indexes(Seen(order, grouped, u), Filed(grouped, u, r))
  {}

  lemma GroupingNext(grouped: Grouped, trials: seq<Trial>, t: Trial, ledger: Ledger)
    requires t.id in ledger && IsGrouping(grouped, trials, ledger)
    ensures IsGrouping(Filed(grouped, UnitOf(t), ledger[t.id]), trials + [t], ledger)
  {
    forall u: Metered
      ensures ResultsOf(trials + [t], ledger, u) == ResultsOf(trials, ledger, u) + Result(t, ledger, u)
    {
      ResultsSnoc(trials, t, ledger, u);
    }
  }

  /** Groups the observed results by unit; `order` lists the units as they first appear. */
  method GroupResults(trials: seq<Trial>, ledger: Ledger) returns (order: seq<Metered>, grouped: Grouped)
    requires forall t <- trials :: t.id in ledger
    ensures Indexes(order, grouped) && IsGrouping(grouped, trials, ledger)
  {
    order, grouped := [], map[];
    for i := 0 to |trials|
      invariant Indexes(order, grouped) && IsGrouping(grouped, trials[..i], ledger)
    {
      var t := trials[i];
      PrefixNext(trials, i);
      IndexNext(order, grouped, UnitOf(t), ledger[t.id]);
      GroupingNext(grouped, trials[..i], t, ledger);
      order, grouped := Seen(order, grouped, UnitOf(t)), Filed(grouped, UnitOf(t), ledger[t.id]);
    }
    assert trials[..|trials|] == trials;
  }

  // ---------- the value of a unit ----------

  datatype Unit = Unit(family: string, all: real, valid: Option<real>)

  type Units = map<Metered, Unit>

  ghost predicate AnyResolved(results: seq<Outcome>) {
    exists r <- results :: r.resolved == Some(true)
  }

  ghost predicate AllMeasured(results: seq<Outcome>) {
    forall r <- results :: r.resolved.Some?
  }

  /** Whether any episode resolved, and the same again if every episode was measured. */
  ghost predicate IsValueOf(u: Unit, results: seq<Outcome>) {
    && results != [] && u.family == results[0].family
    && u.all == (if AnyResolved(results) then 1.0 else 0.0)
    && u.valid == (if AllMeasured(results) then Some(u.all) else None)
  }

  method ValueOfUnit(results: seq<Outcome>) returns (u: Unit)
    requires results != []
    ensures IsValueOf(u, results)
  {
    var all := if exists r <- results :: r.resolved == Some(true) then 1.0 else 0.0;
    u := Unit(results[0].family, all, if forall r <- results :: r.resolved.Some? then Some(all) else None);
  }

  ghost predicate AreValues(units: Units, grouped: Grouped) {
    units.Keys == grouped.Keys && forall u <- grouped :: IsValueOf(units[u], grouped[u])
  }

  /** The values of all units; refused exactly if a unit has not all its episodes. */
  method UnitValues(p: Plan, order: seq<Metered>, grouped: Grouped) returns (units: Option<Units>)
    requires Indexes(order, grouped) && forall u <- grouped :: grouped[u] != []
    ensures units.Some? <==> forall u <- grouped :: |grouped[u]| == p.episodes
    ensures units.Some? ==> AreValues(units.value, grouped)
  {
    var built: Units := map[];
    for i := 0 to |order|
      invariant forall u :: u in built <==> u in order[..i]
      invariant forall u <- built :: u in grouped && |grouped[u]| == p.episodes && IsValueOf(built[u], grouped[u])
    {
      var u := order[i];
      PrefixNext(order, i);
      assert u in order;
      if |grouped[u]| != p.episodes {
        return None;
      }
      var value := ValueOfUnit(grouped[u]);
      built := built[u := value];
    }
    assert order[..|order|] == order;
    return Some(built);
  }

  /** Values are zero or one, and a valid value is the value itself. */
  ghost predicate Binary(units: Units) {
    forall u <- units ::
      (units[u].all == 0.0 || units[u].all == 1.0) && (units[u].valid.Some? ==> units[u].valid.value == units[u].all)
  }

  // ---------- the values that a rate is computed from ----------

  function ValueIn(u: Unit, population: Population): Option<real> {
    if population.AllAssigned? then Some(u.all) else u.valid
  }

  function Listed(family: string, x: Option<real>): seq<Valued> {
    if x.Some? then [Valued(family, x.value)] else []
  }

  /** The value that a unit contributes to the rate of an arm. */
  function Share(units: Units, arm: Arm, population: Population, u: Metered): Option<real> {
    if u.arm == arm && u in units then ValueIn(units[u], population) else None
  }

  function ArmItem(units: Units, arm: Arm, population: Population): Metered -> seq<Valued> {
    (u: Metered) => Listed(if u in units then units[u].family else "", Share(units, arm, population, u))
  }

  function Difference(left: Option<real>, right: Option<real>): Option<real> {
    if left.Some? && right.Some? then Some(right.value - left.value) else None
  }

  function UnitIn(c: Cell, arm: Arm): Metered {
    Metered(c.task, c.seed, arm)
  }

  function PairItem(units: Units, left: Arm, right: Arm, population: Population): Cell -> seq<Valued> {
    (c: Cell) =>
      if UnitIn(c, left) in units && UnitIn(c, right) in units then
        Listed(units[UnitIn(c, left)].family,
               Difference(ValueIn(units[UnitIn(c, left)], population), ValueIn(units[UnitIn(c, right)], population)))
      else []
  }

  datatype Cell = Cell(task: string, seed: nat)

  /** The values of the units of an arm, or the differences over the cells, of a population. */
  function Items(rate: Rate, units: Units, order: seq<Metered>, cells: seq<Cell>): seq<Valued> {
    match rate
    case ArmRate(arm, population) => Gather(ArmItem(units, arm, population), order)
    case PairedRate(left, right, _, population) => Gather(PairItem(units, left, right, population), cells)
  }

  lemma ItemsInRange(rate: Rate, units: Units, order: seq<Metered>, cells: seq<Cell>)
    requires Binary(units)
    ensures forall v <- Items(rate, units, order, cells) :: Low(rate) <= v.value <= 1.0
  {
    forall v <- Items(rate, units, order, cells)
      ensures Low(rate) <= v.value <= 1.0
    {
      match rate
      case ArmRate(arm, population) =>
        GatherElements(ArmItem(units, arm, population), order, v);
        var u :| u in order && v in ArmItem(units, arm, population)(u);
        assert u in units;
      case PairedRate(left, right, _, population) =>
        GatherElements(PairItem(units, left, right, population), cells, v);
        var c :| c in cells && v in PairItem(units, left, right, population)(c);
        assert UnitIn(c, left) in units && UnitIn(c, right) in units;
    }
  }

  // ---------- the counts of an arm ----------

  datatype Counts = Counts(arm: Arm, units: nat, valid: nat, resolved: nat, failed: nat, invalid: nat)

  ghost function ArmItems(units: Units, order: seq<Metered>, arm: Arm, population: Population): seq<Valued> {
    Gather(ArmItem(units, arm, population), order)
  }

  /** Every unit of the arm is resolved, failed or invalid, and the valid values of the metric count the resolved. */
  ghost predicate CountsOf(n: Counts, units: Units, order: seq<Metered>, arm: Arm) {
    && n.arm == arm
    && n.units == n.valid + n.invalid && n.valid == n.resolved + n.failed
    && n.units == |ArmItems(units, order, arm, AllAssigned)|
    && n.valid == |ArmItems(units, order, arm, ValidOnly)|
    && n.resolved as real == Sum(ValueOf, ArmItems(units, order, arm, ValidOnly))
  }

  lemma ArmItemsNext(units: Units, order: seq<Metered>, arm: Arm, population: Population, u: Metered)
    requires u in units
    ensures ArmItems(units, order + [u], arm, population) ==
            ArmItems(units, order, arm, population) + Listed(units[u].family, Share(units, arm, population, u))
  {
    GatherSnoc(ArmItem(units, arm, population), order, u);
  }

  lemma ListedNext(items: seq<Valued>, family: string, x: Option<real>)
    ensures |items + Listed(family, x)| == |items| + (if x.Some? then 1 else 0)
    ensures Sum(ValueOf, items + Listed(family, x)) == Sum(ValueOf, items) + (if x.Some? then x.value else 0.0)
  {
    if x.Some? {
      SumOne(ValueOf, items, Valued(family, x.value));
    } else {
      assert items + [] == items;
    }
  }

  lemma CountNext(n: Counts, units: Units, order: seq<Metered>, arm: Arm, u: Metered)
    requires CountsOf(n, units, order, arm) && Binary(units) && u in units
    ensures CountsOf(Counted(n, u, units[u]), units, order + [u], arm)
  {
    ArmItemsNext(units, order, arm, AllAssigned, u);
    ArmItemsNext(units, order, arm, ValidOnly, u);
    ListedNext(ArmItems(units, order, arm, AllAssigned), units[u].family, Share(units, arm, AllAssigned, u));
    ListedNext(ArmItems(units, order, arm, ValidOnly), units[u].family, Share(units, arm, ValidOnly, u));
  }

  function Counted(n: Counts, u: Metered, unit: Unit): Counts {
    if u.arm != n.arm then n
    else if unit.valid.None? then n.(units := n.units + 1, invalid := n.invalid + 1)
    else if unit.valid == Some(0.0) then n.(units := n.units + 1, valid := n.valid + 1, failed := n.failed + 1)
    else n.(units := n.units + 1, valid := n.valid + 1, resolved := n.resolved + 1)
  }

  /** The counts of one arm. */
  method Count(units: Units, order: seq<Metered>, arm: Arm) returns (n: Counts)
    requires Binary(units) && forall u <- order :: u in units
    ensures CountsOf(n, units, order, arm)
  {
    n := Counts(arm, 0, 0, 0, 0, 0);
    for i := 0 to |order|
      invariant CountsOf(n, units, order[..i], arm)
    {
      PrefixNext(order, i);
      CountNext(n, units, order[..i], arm, order[i]);
      n := Counted(n, order[i], units[order[i]]);
    }
    assert order[..|order|] == order;
  }

  /** No unit of the arm has both a resolved episode and one that was not measured. */
  ghost predicate Clear(units: Units, order: seq<Metered>, arm: Arm) {
    forall u <- order :: u.arm == arm && u in units && units[u].valid.None? ==> units[u].all == 0.0
  }

  lemma {:induction false} AllOutnumberValid(units: Units, order: seq<Metered>, arm: Arm)
    requires Binary(units)
    ensures var all := Sum(ValueOf, ArmItems(units, order, arm, AllAssigned));
            var valid := Sum(ValueOf, ArmItems(units, order, arm, ValidOnly));
            valid <= all && (valid == all <==> Clear(units, order, arm))
  {
    if order == [] {
    } else {
      var u, rest := order[0], order[1..];
      AllOutnumberValid(units, rest, arm);
      assert order == [u] + rest;
      ArmItemsFirst(units, order, arm, AllAssigned);
      ArmItemsFirst(units, order, arm, ValidOnly);
    }
  }

  lemma ArmItemsFirst(units: Units, order: seq<Metered>, arm: Arm, population: Population)
    requires order != []
    ensures var x, rest := Share(units, arm, population, order[0]), ArmItems(units, order[1..], arm, population);
            && Sum(ValueOf, ArmItems(units, order, arm, population)) ==
               (if x.Some? then x.value else 0.0) + Sum(ValueOf, rest)
            && |ArmItems(units, order, arm, population)| == (if x.Some? then 1 else 0) + |rest|
  {
    var u := order[0];
    ListedFirst(if u in units then units[u].family else "", Share(units, arm, population, u),
                ArmItems(units, order[1..], arm, population));
  }

  lemma ListedFirst(family: string, x: Option<real>, items: seq<Valued>)
    ensures Sum(ValueOf, Listed(family, x) + items) == (if x.Some? then x.value else 0.0) + Sum(ValueOf, items)
    ensures |Listed(family, x) + items| == (if x.Some? then 1 else 0) + |items|
  {
    if x.Some? {
      assert ([Valued(family, x.value)] + items)[1..] == items;
    } else {
      assert [] + items == items;
    }
  }

  /**
   The rates of an arm are quotients of its counts: the valid-only rate always, and the all-assigned
   rate exactly when no unit has both a resolved episode and one that was not measured; otherwise it
   is greater.
   */
  lemma RatesAreCounts(n: Counts, units: Units, order: seq<Metered>, arm: Arm)
    requires Binary(units) && CountsOf(n, units, order, arm) && n.units > 0
    ensures var valid := ArmRate(arm, ValidOnly);
            Estimation(valid, Items(valid, units, order, [])) ==
            if n.valid == 0 then None else Some(n.resolved as real / n.valid as real)
    ensures var all := ArmRate(arm, AllAssigned);
            var rate := Estimation(all, Items(all, units, order, []));
            && rate.Some? && rate.value >= n.resolved as real / n.units as real
            && (rate.value == n.resolved as real / n.units as real <==> Clear(units, order, arm))
  {
    AllOutnumberValid(units, order, arm);
    Quotients(n.resolved as real, Sum(ValueOf, ArmItems(units, order, arm, AllAssigned)), n.units as real);
  }

  lemma Quotients(a: real, b: real, n: real)
    requires n > 0.0 && a <= b
    ensures a / n <= b / n && (a / n == b / n <==> a == b)
  {
    var x, y := a / n, b / n;
    assert x * n == a && y * n == b;
    assert (y - x) * n == b - a;
    Sign(y - x, n);
  }

  // ---------- groups ----------

  function Put(groups: Groups, family: string, x: Option<real>): Groups {
    if x.Some? then Added(groups, Valued(family, x.value)) else groups
  }

  lemma GatherPut<T>(pick: T -> seq<Valued>, s: seq<T>, x: T, family: string, value: Option<real>)
    requires pick(x) == Listed(family, value)
    ensures GroupsOf(Gather(pick, s + [x])) == Put(GroupsOf(Gather(pick, s)), family, value)
  {
    GatherSnoc(pick, s, x);
    if value.Some? {
      GroupsNext(Gather(pick, s), Valued(family, value.value));
    } else {
      assert Gather(pick, s) + [] == Gather(pick, s);
    }
  }

  ghost function ArmGroup(units: Units, order: seq<Metered>, arm: Arm, population: Population): Groups {
    GroupsOf(Gather(ArmItem(units, arm, population), order))
  }

  lemma ArmGroupNext(units: Units, order: seq<Metered>, arm: Arm, population: Population, u: Metered)
    requires u in units
    ensures ArmGroup(units, order + [u], arm, population) ==
            Put(ArmGroup(units, order, arm, population), units[u].family, Share(units, arm, population, u))
  {
    GatherPut(ArmItem(units, arm, population), order, u, units[u].family, Share(units, arm, population, u));
  }

  /** The values of an arm by family, for both populations. */
  method ArmGroups(units: Units, order: seq<Metered>, arm: Arm) returns (all: Groups, valid: Groups)
    requires forall u <- order :: u in units
    ensures all == ArmGroup(units, order, arm, AllAssigned) && valid == ArmGroup(units, order, arm, ValidOnly)
  {
    all, valid := map[], map[];
    for i := 0 to |order|
      invariant all == ArmGroup(units, order[..i], arm, AllAssigned)
      invariant valid == ArmGroup(units, order[..i], arm, ValidOnly)
    {
      var u := order[i];
      PrefixNext(order, i);
      ArmGroupNext(units, order[..i], arm, AllAssigned, u);
      ArmGroupNext(units, order[..i], arm, ValidOnly, u);
      all := Put(all, units[u].family, Share(units, arm, AllAssigned, u));
      valid := Put(valid, units[u].family, Share(units, arm, ValidOnly, u));
    }
    assert order[..|order|] == order;
  }

  /** Both arms have a unit in the cell. */
  ghost predicate Full(units: Units, c: Cell) {
    forall arm :: UnitIn(c, arm) in units
  }

  function FamilyIn(units: Units, c: Cell, arm: Arm): string {
    if UnitIn(c, arm) in units then units[UnitIn(c, arm)].family else ""
  }

  ghost predicate FamiliesAgree(units: Units, cells: seq<Cell>, left: Arm, right: Arm) {
    forall c <- cells :: FamilyIn(units, c, left) == FamilyIn(units, c, right)
  }

  ghost function PairGroup(units: Units, cells: seq<Cell>, left: Arm, right: Arm, population: Population): Groups {
    GroupsOf(Gather(PairItem(units, left, right, population), cells))
  }

  function DifferenceIn(units: Units, c: Cell, left: Arm, right: Arm, population: Population): Option<real>
    requires Full(units, c)
  {
    Difference(ValueIn(units[UnitIn(c, left)], population), ValueIn(units[UnitIn(c, right)], population))
  }

  lemma PairGroupNext(units: Units, cells: seq<Cell>, left: Arm, right: Arm, population: Population, c: Cell)
    requires Full(units, c)
    ensures PairGroup(units, cells + [c], left, right, population) ==
            Put(PairGroup(units, cells, left, right, population),
                units[UnitIn(c, left)].family, DifferenceIn(units, c, left, right, population))
  {
    GatherPut(PairItem(units, left, right, population), cells, c,
              units[UnitIn(c, left)].family, DifferenceIn(units, c, left, right, population));
  }

  /** The differences of a comparison by family, for both populations; refused if the arms disagree on a family. */
  method PairGroups(units: Units, cells: seq<Cell>, left: Arm, right: Arm)
    returns (agree: bool, all: Groups, valid: Groups)
    requires forall c <- cells :: Full(units, c)
    ensures agree <==> FamiliesAgree(units, cells, left, right)
    ensures agree ==> all == PairGroup(units, cells, left, right, AllAssigned)
    ensures agree ==> valid == PairGroup(units, cells, left, right, ValidOnly)
  {
    all, valid := map[], map[];
    for i := 0 to |cells|
      invariant FamiliesAgree(units, cells[..i], left, right)
      invariant all == PairGroup(units, cells[..i], left, right, AllAssigned)
      invariant valid == PairGroup(units, cells[..i], left, right, ValidOnly)
    {
      var c := cells[i];
      PrefixNext(cells, i);
      assert c in cells;
      var family := FamilyIn(units, c, left);
      if family != FamilyIn(units, c, right) {
        return false, all, valid;
      }
      PairGroupNext(units, cells[..i], left, right, AllAssigned, c);
      PairGroupNext(units, cells[..i], left, right, ValidOnly, c);
      all := Put(all, family, DifferenceIn(units, c, left, right, AllAssigned));
      valid := Put(valid, family, DifferenceIn(units, c, left, right, ValidOnly));
    }
    assert cells[..|cells|] == cells;
    agree := true;
  }

  // ---------- the paired rate is the difference of the rates ----------

  /** The all-assigned value of an arm in a cell. */
  function AllIn(units: Units, arm: Arm): Cell -> real {
    (c: Cell) => if UnitIn(c, arm) in units then units[UnitIn(c, arm)].all else 0.0
  }

  function CellOf(u: Metered): Cell {
    Cell(u.task, u.seed)
  }

  /** The cells of the units of one arm, in the order of all units. */
  function ArmCells(order: seq<Metered>, arm: Arm): seq<Cell> {
    if order == [] then [] else (if order[0].arm == arm then [CellOf(order[0])] else []) + ArmCells(order[1..], arm)
  }

  lemma {:induction false} ArmCellsMeaning(order: seq<Metered>, arm: Arm)
    requires Distinct(order)
    ensures Distinct(ArmCells(order, arm))
    ensures forall c :: c in ArmCells(order, arm) <==> UnitIn(c, arm) in order
  {
    if order == [] {
    } else {
      var rest := ArmCells(order[1..], arm);
      TailIsDistinct(order);
      ArmCellsMeaning(order[1..], arm);
      assert order == [order[0]] + order[1..];
      if order[0].arm == arm {
        assert ArmCells(order, arm)[1..] == rest;
        DistinctFirst(ArmCells(order, arm));
      }
    }
  }

  lemma {:induction false} ArmSum(units: Units, order: seq<Metered>, arm: Arm)
    requires forall u <- order :: u in units
    ensures Sum(ValueOf, ArmItems(units, order, arm, AllAssigned)) == Sum(AllIn(units, arm), ArmCells(order, arm))
    ensures |ArmItems(units, order, arm, AllAssigned)| == |ArmCells(order, arm)|
  {
    if order == [] {
    } else {
      var u, rest := order[0], order[1..];
      ArmSum(units, rest, arm);
      ArmItemsFirst(units, order, arm, AllAssigned);
      assert u in units;
      if u.arm == arm {
        assert UnitIn(CellOf(u), arm) == u;
        assert ArmCells(order, arm)[1..] == ArmCells(rest, arm);
      } else {
        assert ArmCells(order, arm) == ArmCells(rest, arm);
      }
    }
  }

  lemma {:induction false} PairSum(units: Units, cells: seq<Cell>, left: Arm, right: Arm)
    requires forall c <- cells :: Full(units, c)
    ensures Sum(ValueOf, Gather(PairItem(units, left, right, AllAssigned), cells)) ==
            Sum(AllIn(units, right), cells) - Sum(AllIn(units, left), cells)
    ensures |Gather(PairItem(units, left, right, AllAssigned), cells)| == |cells|
  {
    if cells == [] {
    } else {
      var c, rest := cells[0], cells[1..];
      assert c in cells && Full(units, c);
      PairSum(units, rest, left, right);
      ListedFirst(units[UnitIn(c, left)].family, DifferenceIn(units, c, left, right, AllAssigned),
                  Gather(PairItem(units, left, right, AllAssigned), rest));
    }
  }

  /** Each cell once, with both arms in it, and no other unit. */
  ghost predicate AreCells(cells: seq<Cell>, units: Units) {
    && Distinct(cells)
    && (forall c <- cells :: Full(units, c))
    && (forall u <- units :: CellOf(u) in cells)
  }

  lemma SameCells(units: Units, order: seq<Metered>, cells: seq<Cell>, arm: Arm)
    requires Indexes(order, units) && AreCells(cells, units)
    ensures forall c :: UnitIn(c, arm) in order <==> c in cells
  {
    forall c
      ensures UnitIn(c, arm) in order <==> c in cells
    {
      assert CellOf(UnitIn(c, arm)) == c;
    }
  }

  lemma ArmTotal(units: Units, order: seq<Metered>, cells: seq<Cell>, arm: Arm)
    requires Indexes(order, units) && AreCells(cells, units)
    ensures Sum(ValueOf, ArmItems(units, order, arm, AllAssigned)) == Sum(AllIn(units, arm), cells)
    ensures |ArmItems(units, order, arm, AllAssigned)| == |cells|
  {
    ArmCellsMeaning(order, arm);
    SameCells(units, order, cells, arm);
    SumPermuted(AllIn(units, arm), ArmCells(order, arm), cells);
    ArmSum(units, order, arm);
  }

  lemma PairedSums(units: Units, order: seq<Metered>, cells: seq<Cell>, left: Arm, right: Arm)
    requires Indexes(order, units) && AreCells(cells, units)
    ensures |ArmItems(units, order, left, AllAssigned)| == |ArmItems(units, order, right, AllAssigned)| == |cells|
    ensures |Gather(PairItem(units, left, right, AllAssigned), cells)| == |cells|
    ensures Sum(ValueOf, ArmItems(units, order, left, AllAssigned)) == Sum(AllIn(units, left), cells)
    ensures Sum(ValueOf, ArmItems(units, order, right, AllAssigned)) == Sum(AllIn(units, right), cells)
    ensures Sum(ValueOf, Gather(PairItem(units, left, right, AllAssigned), cells)) ==
            Sum(AllIn(units, right), cells) - Sum(AllIn(units, left), cells)
  {
    ArmTotal(units, order, cells, left);
    ArmTotal(units, order, cells, right);
    PairSum(units, cells, left, right);
  }

  lemma MeansDiffer(x: seq<Valued>, y: seq<Valued>, d: seq<Valued>)
    requires d != [] && |x| == |y| == |d| && Sum(ValueOf, d) == Sum(ValueOf, y) - Sum(ValueOf, x)
    ensures MeanOf(d) == MeanOf(y) - MeanOf(x)
  {
    SubtractDivide(Sum(ValueOf, y), Sum(ValueOf, x), |d| as real);
  }

  /**
   The mean difference over all cells is the difference of the two arms' means: same cells, same
   weights, in whatever order either is summed.
   */
  lemma PairedIsDifference(units: Units, order: seq<Metered>, cells: seq<Cell>, left: Arm, right: Arm)
    requires Indexes(order, units) && AreCells(cells, units) && cells != []
    ensures var x := Items(ArmRate(left, AllAssigned), units, order, cells);
            var y := Items(ArmRate(right, AllAssigned), units, order, cells);
            var d := Items(PairedRate(left, right, false, AllAssigned), units, order, cells);
            x != [] && y != [] && d != [] && MeanOf(d) == MeanOf(y) - MeanOf(x)
  {
    PairedSums(units, order, cells, left, right);
    MeansDiffer(ArmItems(units, order, left, AllAssigned), ArmItems(units, order, right, AllAssigned),
                Gather(PairItem(units, left, right, AllAssigned), cells));
  }

  lemma SubtractDivide(a: real, b: real, n: real)
    requires n > 0.0
    ensures (a - b) / n == a / n - b / n
  {}

  // ---------- the summary ----------

  datatype Summary = Summary(arms: seq<Counts>, metrics: seq<Estimated>)

  datatype Refusal = WrongLedger | IncompleteUnit | FamiliesDiffer | BadMetric

  datatype Answer<+T> = Ok(value: T) | Refused(why: Refusal)

  /** What a summary is computed from. */
  datatype Basis = Basis(ledger: Ledger, units: Units, order: seq<Metered>, cells: seq<Cell>)

  ghost predicate Sound(b: Basis) {
    && Indexes(b.order, b.units) && Binary(b.units)
    && AreCells(b.cells, b.units) && b.cells != []
  }

  ghost predicate ReportsOn(m: Estimated, rate: Rate, b: Basis) {
    Reports(m, rate, Items(rate, b.units, b.order, b.cells))
  }

  ghost predicate ReportsAll(metrics: seq<Estimated>, rates: seq<Rate>, b: Basis) {
    && |metrics| == |rates|
    && (forall k {:trigger ReportsOn(metrics[k], rates[k], b)} | 0 <= k < |rates| ::
          ReportsOn(metrics[k], rates[k], b))
    && forall m <- metrics :: IsRate(m)
  }

  /** The bounds are those of the bootstrap whose seed is that of the summary plus this offset. */
  ghost predicate IntervalOn(m: Estimated, offset: nat, b: Basis, boot: Bootstrap)
    requires boot.resamples > 0
  {
    HasInterval(m, Items(m.rate, b.units, b.order, b.cells), boot.(seed := boot.seed + offset))
  }

  ghost predicate IntervalsOn(metrics: seq<Estimated>, offsets: seq<nat>, b: Basis, boot: Bootstrap)
    requires boot.resamples > 0
  {
    && |metrics| == |offsets|
    && forall k {:trigger IntervalOn(metrics[k], offsets[k], b, boot)} | 0 <= k < |offsets| ::
         IntervalOn(metrics[k], offsets[k], b, boot)
  }

  lemma IntervalsTwo(m: Estimated, i: nat, n: Estimated, j: nat, b: Basis, boot: Bootstrap)
    requires boot.resamples > 0 && IntervalOn(m, i, b, boot) && IntervalOn(n, j, b, boot)
    ensures IntervalsOn([m, n], [i, j], b, boot)
  {}

  lemma IntervalsJoin(m: seq<Estimated>, o: seq<nat>, n: seq<Estimated>, q: seq<nat>, b: Basis, boot: Bootstrap)
    requires boot.resamples > 0 && IntervalsOn(m, o, b, boot) && IntervalsOn(n, q, b, boot)
    ensures IntervalsOn(m + n, o + q, b, boot)
  {
    forall k | 0 <= k < |o + q|
      ensures IntervalOn((m + n)[k], (o + q)[k], b, boot)
    {
      if k < |o| {
        assert (m + n)[k] == m[k] && (o + q)[k] == o[k];
      } else {
        assert (m + n)[k] == n[k - |m|] && (o + q)[k] == q[k - |o|];
      }
    }
  }

  /** Both populations of a comparison are resampled with the same seeds, one for each weighting. */
  function PairOffsets(offset: nat): seq<nat> {
    [offset, offset + 1] + [offset, offset + 1]
  }

  /** The offsets of all seeds: one for each metric of an arm, and two for each comparison. */
  function Offsets(comparisons: nat): seq<nat> {
    if comparisons == 0 then [0, 1] + [2, 3]
    else Offsets(comparisons - 1) + PairOffsets(100 + 4 * (comparisons - 1))
  }

  lemma ReportsTwo(m: Estimated, r: Rate, n: Estimated, q: Rate, b: Basis)
    requires ReportsOn(m, r, b) && IsRate(m) && ReportsOn(n, q, b) && IsRate(n)
    ensures ReportsAll([m, n], [r, q], b)
  {}

  lemma ReportsJoin(m: seq<Estimated>, r: seq<Rate>, n: seq<Estimated>, q: seq<Rate>, b: Basis)
    requires ReportsAll(m, r, b) && ReportsAll(n, q, b)
    ensures ReportsAll(m + n, r + q, b)
  {
    forall k | 0 <= k < |r + q|
      ensures ReportsOn((m + n)[k], (r + q)[k], b)
    {
      if k < |r| {
        assert (m + n)[k] == m[k] && (r + q)[k] == r[k];
      } else {
        assert (m + n)[k] == n[k - |m|] && (r + q)[k] == q[k - |r|];
      }
    }
  }

  function ArmRates(arm: Arm): seq<Rate> {
    [ArmRate(arm, AllAssigned), ArmRate(arm, ValidOnly)]
  }

  function Weightings(left: Arm, right: Arm, population: Population): seq<Rate> {
    [PairedRate(left, right, false, population), PairedRate(left, right, true, population)]
  }

  function PairRates(left: Arm, right: Arm): seq<Rate> {
    Weightings(left, right, AllAssigned) + Weightings(left, right, ValidOnly)
  }

  function PairOf(c: (Arm, Arm)): seq<Rate> {
    PairRates(c.0, c.1)
  }

  /** The metrics of a summary: both arms in both populations, and each comparison in both weightings too. */
  function Rates(comparisons: seq<(Arm, Arm)>): seq<Rate> {
    ArmRates(Base) + ArmRates(FeatureGrpo) + Gather(PairOf, comparisons)
  }

  /** One metric over its groups. */
  method Measure(
    rate: Rate, groups: Groups, size: nat, offset: nat, boot: Bootstrap, ghost b: Basis)
    returns (m: Option<Estimated>)
    requires Sound(b) && boot.resamples > 0
    requires groups == GroupsOf(Items(rate, b.units, b.order, b.cells))
    requires size == SampleSize(rate, Items(rate, b.units, b.order, b.cells))
    ensures m.Some? && ReportsOn(m.value, rate, b) && IsRate(m.value) && IntervalOn(m.value, offset, b, boot)
  {
    ItemsInRange(rate, b.units, b.order, b.cells);
    m := Estimate(
      rate, groups, size, boot.(seed := boot.seed + offset), Items(rate, b.units, b.order, b.cells));
  }

  /** The counts and both rates of an arm. */
  method SummarizeArm(
    units: Units, order: seq<Metered>, arm: Arm, offset: nat, boot: Bootstrap, ghost b: Basis)
    returns (n: Counts, metrics: Option<seq<Estimated>>)
    requires Sound(b) && b.units == units && b.order == order && boot.resamples > 0
    ensures CountsOf(n, units, order, arm)
    ensures metrics.Some? && ReportsAll(metrics.value, ArmRates(arm), b)
    ensures IntervalsOn(metrics.value, [offset, offset + 1], b, boot)
  {
    n := Count(units, order, arm);
    var all, valid := ArmGroups(units, order, arm);
    var first := Measure(ArmRate(arm, AllAssigned), all, n.units, offset, boot, b);
    var second := Measure(ArmRate(arm, ValidOnly), valid, n.valid, offset + 1, boot, b);
    if first.None? || second.None? {
      return n, None;
    }
    ReportsTwo(first.value, ArmRate(arm, AllAssigned), second.value, ArmRate(arm, ValidOnly), b);
    IntervalsTwo(first.value, offset, second.value, offset + 1, b, boot);
    return n, Some([first.value, second.value]);
  }

  /** The number of values in all groups. */
  method SizeOf(groups: Groups, ghost items: seq<Valued>) returns (n: nat)
    requires groups == GroupsOf(items)
    ensures n == |items|
  {
    var families := SortedFamilies(groups.Keys);
    FlattenAll(items);
    n := |Flatten(groups, families)|;
  }

  lemma PairSizes(b: Basis, left: Arm, right: Arm, population: Population)
    ensures var task := PairedRate(left, right, false, population);
            SampleSize(task, Items(task, b.units, b.order, b.cells)) ==
            |Gather(PairItem(b.units, left, right, population), b.cells)|
    ensures var family := PairedRate(left, right, true, population);
            SampleSize(family, Items(family, b.units, b.order, b.cells)) ==
            |PairGroup(b.units, b.cells, left, right, population)|
  {
    GroupsHaveFamilies(Gather(PairItem(b.units, left, right, population), b.cells));
  }

  /** Both weightings of a comparison over one population. */
  method Weigh(
    left: Arm, right: Arm, population: Population, groups: Groups, offset: nat, boot: Bootstrap,
    ghost b: Basis)
    returns (metrics: Option<seq<Estimated>>)
    requires Sound(b) && boot.resamples > 0 && groups == PairGroup(b.units, b.cells, left, right, population)
    ensures metrics.Some? && ReportsAll(metrics.value, Weightings(left, right, population), b)
    ensures IntervalsOn(metrics.value, [offset, offset + 1], b, boot)
  {
    PairSizes(b, left, right, population);
    var n := SizeOf(groups, Gather(PairItem(b.units, left, right, population), b.cells));
    var task := Measure(PairedRate(left, right, false, population), groups, n, offset, boot, b);
    var family :=
      Measure(PairedRate(left, right, true, population), groups, |groups|, offset + 1, boot, b);
    if task.None? || family.None? {
      return None;
    }
    ReportsTwo(
      task.value, PairedRate(left, right, false, population),
      family.value, PairedRate(left, right, true, population), b);
    IntervalsTwo(task.value, offset, family.value, offset + 1, b, boot);
    return Some([task.value, family.value]);
  }

  /** Both weightings over both populations. */
  method WeighBoth(
    left: Arm, right: Arm, all: Groups, valid: Groups, offset: nat, boot: Bootstrap, ghost b: Basis)
    returns (metrics: Option<seq<Estimated>>)
    requires Sound(b) && boot.resamples > 0
    requires all == PairGroup(b.units, b.cells, left, right, AllAssigned)
    requires valid == PairGroup(b.units, b.cells, left, right, ValidOnly)
    ensures metrics.Some? && ReportsAll(metrics.value, PairRates(left, right), b)
    ensures IntervalsOn(metrics.value, PairOffsets(offset), b, boot)
  {
    var first := Weigh(left, right, AllAssigned, all, offset, boot, b);
    var second := Weigh(left, right, ValidOnly, valid, offset, boot, b);
    if first.None? || second.None? {
      return None;
    }
    ReportsJoin(
      first.value, Weightings(left, right, AllAssigned), second.value, Weightings(left, right, ValidOnly), b);
    IntervalsJoin(first.value, [offset, offset + 1], second.value, [offset, offset + 1], b, boot);
    return Some(first.value + second.value);
  }

  /** The four estimates of a comparison; refused if its arms disagree on the family of a cell. */
  method SummarizePair(
    units: Units, cells: seq<Cell>, left: Arm, right: Arm, offset: nat, boot: Bootstrap,
    ghost b: Basis)
    returns (r: Answer<seq<Estimated>>)
    requires Sound(b) && b.units == units && b.cells == cells && boot.resamples > 0
    ensures r.Ok? <==> FamiliesAgree(units, cells, left, right)
    ensures r.Ok? ==> ReportsAll(r.value, PairRates(left, right), b)
    ensures r.Ok? ==> IntervalsOn(r.value, PairOffsets(offset), b, boot)
  {
    var agree, all, valid := PairGroups(units, cells, left, right);
    if !agree {
      return Refused(FamiliesDiffer);
    }
    var four := WeighBoth(left, right, all, valid, offset, boot, b);
    return if four.Some? then Ok(four.value) else Refused(BadMetric);
  }

  /** The cells of the study, each once. */
  method CellsOf(units: Units) returns (cells: seq<Cell>)
    ensures Distinct(cells)
    ensures forall c :: c in cells <==> exists u <- units :: CellOf(u) == c
  {
    var rest := set u <- units :: CellOf(u);
    ghost var all := rest;
    cells := [];
    while rest != {}
      invariant Distinct(cells) && rest <= all
      invariant forall c :: c in all <==> c in rest || c in cells
      invariant forall c <- cells :: c !in rest
      decreases |rest|
    {
      var c :| c in rest;
      cells, rest := cells + [c], rest - {c};
    }
  }

  /** The summary of complete values: no comparison is refused, as the arms of a cell are of one family. */
  method SummarizeUnits(
    units: Units, order: seq<Metered>, cells: seq<Cell>, comparisons: seq<(Arm, Arm)>, boot: Bootstrap,
    ghost b: Basis)
    returns (r: Answer<Summary>)
    requires Sound(b) && b.units == units && b.order == order && b.cells == cells && boot.resamples > 0
    requires forall left, right :: FamiliesAgree(units, cells, left, right)
    ensures r.Ok? && ReportsAll(r.value.metrics, Rates(comparisons), b)
    ensures IntervalsOn(r.value.metrics, Offsets(|comparisons|), b, boot)
    ensures |r.value.arms| == 2
    ensures CountsOf(r.value.arms[0], units, order, Base) && CountsOf(r.value.arms[1], units, order, FeatureGrpo)
  {
    var base, baseMetrics := SummarizeArm(units, order, Base, 0, boot, b);
    var tuned, tunedMetrics := SummarizeArm(units, order, FeatureGrpo, 2, boot, b);
    if baseMetrics.None? || tunedMetrics.None? {
      return Refused(BadMetric);
    }
    var metrics := baseMetrics.value + tunedMetrics.value;
    ghost var rates := ArmRates(Base) + ArmRates(FeatureGrpo);
    ReportsJoin(baseMetrics.value, ArmRates(Base), tunedMetrics.value, ArmRates(FeatureGrpo), b);
    IntervalsJoin(baseMetrics.value, [0, 1], tunedMetrics.value, [2, 3], b, boot);
    assert rates + Gather(PairOf, comparisons[..0]) == rates;
    for i := 0 to |comparisons|
      invariant ReportsAll(metrics, rates + Gather(PairOf, comparisons[..i]), b)
      invariant IntervalsOn(metrics, Offsets(i), b, boot)
    {
      var (left, right) := comparisons[i];
      var four := SummarizePair(units, cells, left, right, 100 + 4 * i, boot, b);
      match four
      case Refused(why) =>
        return Refused(why);
      case Ok(estimates) =>
        PrefixNext(comparisons, i);
        RatesNext(rates, comparisons[..i], comparisons[i]);
        ReportsJoin(metrics, rates + Gather(PairOf, comparisons[..i]), estimates, PairRates(left, right), b);
        IntervalsJoin(metrics, Offsets(i), estimates, PairOffsets(100 + 4 * i), b, boot);
        metrics := metrics + estimates;
    }
    assert comparisons[..|comparisons|] == comparisons;
    return Ok(Summary([base, tuned], metrics));
  }

  lemma RatesNext(rates: seq<Rate>, comparisons: seq<(Arm, Arm)>, c: (Arm, Arm))
    ensures rates + Gather(PairOf, comparisons + [c]) == rates + Gather(PairOf, comparisons) + PairRates(c.0, c.1)
  {
    GatherSnoc(PairOf, comparisons, c);
    assert PairOf(c) == PairRates(c.0, c.1);
  }

  // ---------- an accepted study is never refused for its shape ----------

  /** The receipts' values, unit by unit, for exactly the planned units. */
  ghost predicate Founded(b: Basis, p: Plan, receipts: seq<Receipt>, families: map<string, string>) {
    && Records(b.ledger, p.trials, receipts, families)
    && (forall u :: u in b.units <==> Planned(p, u))
    && forall u <- b.units :: IsValueOf(b.units[u], ResultsOf(p.trials, b.ledger, u))
  }

  /** The units of an accepted study are the planned ones, of both arms, with all their episodes. */
  lemma UnitsArePlanned(p: Plan, derive: Round -> int, ledger: Ledger, grouped: Grouped)
    requires Accepted(p, derive) && p.episodes > 0 && forall t <- p.trials :: t.id in ledger
    requires IsGrouping(grouped, p.trials, ledger)
    ensures forall u: Metered :: u in grouped <==> Planned(p, u)
    ensures forall u <- grouped :: |grouped[u]| == p.episodes
  {
    forall u: Metered
      ensures u in grouped <==> Planned(p, u)
      ensures u in grouped ==> |grouped[u]| == p.episodes
    {
      UnitsAreComplete(p, derive, u);
      ResultsCount(p.trials, ledger, u);
    }
  }

  lemma ValuesAreBinary(units: Units, grouped: Grouped)
    requires AreValues(units, grouped)
    ensures Binary(units)
  {
    forall u <- units
      ensures units[u].all == 0.0 || units[u].all == 1.0
      ensures units[u].valid.Some? ==> units[u].valid.value == units[u].all
    {
      assert IsValueOf(units[u], grouped[u]);
    }
  }

  lemma CellsArePlanned(p: Plan, derive: Round -> int, units: Units, cells: seq<Cell>)
    requires Accepted(p, derive) && p.trials != [] && (forall u :: u in units <==> Planned(p, u))
    requires Distinct(cells) && forall c :: c in cells <==> exists u <- units :: CellOf(u) == c
    ensures AreCells(cells, units) && cells != []
  {
    var t := p.trials[0];
    assert SlotOf(t) in Slots(p.trials);
    ProductMeaning(p, SlotOf(t));
    assert UnitOf(t) in units;
    forall c <- cells
      ensures Full(units, c)
    {
      var u :| u in units && CellOf(u) == c;
      assert Planned(p, u);
    }
  }

  /** The arms of a cell have the family of its task. */
  lemma ArmsAgree(
    p: Plan, ledger: Ledger, families: map<string, string>, units: Units, cells: seq<Cell>, left: Arm, right: Arm)
    requires forall t <- p.trials :: t.id in ledger && t.task in families && ledger[t.id].family == families[t.task]
    requires forall u <- units :: IsValueOf(units[u], ResultsOf(p.trials, ledger, u))
    requires forall c <- cells :: Full(units, c)
    ensures FamiliesAgree(units, cells, left, right)
  {
    forall c <- cells, arm: Arm
      ensures c.task in families && FamilyIn(units, c, arm) == families[c.task]
    {
      assert Full(units, c);
      var u := UnitIn(c, arm);
      var results := ResultsOf(p.trials, ledger, u);
      assert IsValueOf(units[u], results) && results[0] in results;
      ResultsFamily(p.trials, ledger, families, u, results[0]);
    }
  }

  /**
   A summary of an accepted study is refused exactly if the receipts are not those of its trials.
   Otherwise every metric that is published reports the values of its population under its weighting,
   with the interval of its own bootstrap, and passes its own checks; the counts are those of the arms.
   */
  method Summarize(
    p: Plan, receipts: seq<Receipt>, families: map<string, string>, boot: Bootstrap,
    ghost derive: Round -> int)
    returns (r: Answer<Summary>, ghost b: Basis)
    requires Formed(p) && Accepted(p, derive) && boot.resamples > 0
    ensures r == Refused(WrongLedger) <==> !Answered(p.trials, receipts, families)
    ensures Answered(p.trials, receipts, families) ==>
              && r.Ok? && Sound(b) && Founded(b, p, receipts, families)
              && ReportsAll(r.value.metrics, Rates(p.comparisons), b)
              && IntervalsOn(r.value.metrics, Offsets(|p.comparisons|), b, boot)
              && |r.value.arms| == 2
              && CountsOf(r.value.arms[0], b.units, b.order, Base)
              && CountsOf(r.value.arms[1], b.units, b.order, FeatureGrpo)
  {
    b := Basis(map[], map[], [], []);
    var ledger := Observe(p.trials, receipts, families);
    if ledger.None? {
      return Refused(WrongLedger), b;
    }
    var order, grouped := GroupResults(p.trials, ledger.value);
    UnitsArePlanned(p, derive, ledger.value, grouped);
    var units := UnitValues(p, order, grouped);
    if units.None? {
      return Refused(IncompleteUnit), b;
    }
    ValuesAreBinary(units.value, grouped);
    var cells := CellsOf(units.value);
    CellsArePlanned(p, derive, units.value, cells);
    forall left, right
      ensures FamiliesAgree(units.value, cells, left, right)
    {
      ArmsAgree(p, ledger.value, families, units.value, cells, left, right);
    }
    b := Basis(ledger.value, units.value, order, cells);
    r := SummarizeUnits(units.value, order, cells, p.comparisons, boot, b);
  }

  // ---------- what the published numbers have to do with each other ----------

  lemma {:induction false} PairAt(comparisons: seq<(Arm, Arm)>, i: nat)
    requires i < |comparisons|
    ensures |Gather(PairOf, comparisons)| == 4 * |comparisons|
    ensures Gather(PairOf, comparisons)[4 * i] == PairedRate(comparisons[i].0, comparisons[i].1, false, AllAssigned)
  {
    var rest := Gather(PairOf, comparisons[1..]);
    assert Gather(PairOf, comparisons) == PairOf(comparisons[0]) + rest;
    if |comparisons| == 1 {
      assert rest == [];
    } else {
      PairAt(comparisons[1..], if i == 0 then 0 else i - 1);
    }
  }

  /** Where the all-assigned rate of an arm is published. */
  function ArmAt(arm: Arm): nat {
    if arm.Base? then 0 else 2
  }

  /** Where the task-weighted all-assigned rate of a comparison is published. */
  function ComparisonAt(i: nat): nat {
    4 + 4 * i
  }

  lemma EstimateAt(metrics: seq<Estimated>, rates: seq<Rate>, k: nat, rate: Rate, b: Basis)
    requires ReportsAll(metrics, rates, b) && k < |rates| && rates[k] == rate
    ensures metrics[k].estimate == Estimation(rate, Items(rate, b.units, b.order, b.cells))
  {
    assert ReportsOn(metrics[k], rates[k], b);
  }

  lemma MeanAt(metrics: seq<Estimated>, rates: seq<Rate>, k: nat, rate: Rate, b: Basis)
    requires ReportsAll(metrics, rates, b) && k < |rates| && rates[k] == rate
    requires !ByFamily(rate) && Items(rate, b.units, b.order, b.cells) != []
    ensures metrics[k].estimate == Some(MeanOf(Items(rate, b.units, b.order, b.cells)))
  {
    EstimateAt(metrics, rates, k, rate, b);
  }

  lemma RateAt(comparisons: seq<(Arm, Arm)>, arm: Arm)
    ensures |Rates(comparisons)| >= 4
    ensures Rates(comparisons)[ArmAt(arm)] == ArmRate(arm, AllAssigned)
    ensures Rates(comparisons)[ArmAt(arm) + 1] == ArmRate(arm, ValidOnly)
  {}

  lemma ComparedAt(comparisons: seq<(Arm, Arm)>, i: nat)
    requires i < |comparisons|
    ensures |Rates(comparisons)| == 4 + 4 * |comparisons|
    ensures Rates(comparisons)[ComparisonAt(i)] ==
            PairedRate(comparisons[i].0, comparisons[i].1, false, AllAssigned)
  {
    PairAt(comparisons, i);
  }

  /** The published rates of every comparison are consistent with the published rates of the arms. */
  lemma PublishedAgree(s: Summary, comparisons: seq<(Arm, Arm)>, i: nat, b: Basis)
    requires Sound(b) && ReportsAll(s.metrics, Rates(comparisons), b) && i < |comparisons|
    ensures |s.metrics| == 4 + 4 * |comparisons|
    ensures var left, right := s.metrics[ArmAt(comparisons[i].0)], s.metrics[ArmAt(comparisons[i].1)];
            && left.estimate.Some? && right.estimate.Some?
            && s.metrics[ComparisonAt(i)].estimate == Some(right.estimate.value - left.estimate.value)
  {
    var (left, right) := comparisons[i];
    RateAt(comparisons, left);
    RateAt(comparisons, right);
    ComparedAt(comparisons, i);
    PairedIsDifference(b.units, b.order, b.cells, left, right);
    MeanAt(s.metrics, Rates(comparisons), ArmAt(left), ArmRate(left, AllAssigned), b);
    MeanAt(s.metrics, Rates(comparisons), ArmAt(right), ArmRate(right, AllAssigned), b);
    MeanAt(s.metrics, Rates(comparisons), ComparisonAt(i), PairedRate(left, right, false, AllAssigned), b);
  }

  // ---------- when a rate is a quotient of counts ----------

  function UnitAt(r: Receipt): Metered {
    Metered(r.task, r.seed, r.arm)
  }

  ghost predicate SomeReceipt(receipts: seq<Receipt>, u: Metered, resolved: Option<bool>) {
    exists r <- receipts :: UnitAt(r) == u && r.resolved == resolved
  }

  /** One episode of the unit resolved and another one was not measured. */
  ghost predicate Mixed(receipts: seq<Receipt>, u: Metered) {
    SomeReceipt(receipts, u, Some(true)) && SomeReceipt(receipts, u, None)
  }

  ghost predicate Unmixed(receipts: seq<Receipt>, arm: Arm) {
    forall u: Metered | u.arm == arm :: !Mixed(receipts, u)
  }

  lemma {:induction false} ResultsElements(trials: seq<Trial>, ledger: Ledger, u: Metered, x: Outcome)
    ensures x in ResultsOf(trials, ledger, u) <==>
              exists t <- trials :: UnitOf(t) == u && t.id in ledger && ledger[t.id] == x
  {
    if trials == [] {
    } else {
      ResultsElements(trials[1..], ledger, u, x);
      assert trials == [trials[0]] + trials[1..];
    }
  }

  /** A receipt that fits a trial is the one that was recorded for it. */
  lemma RecordedReceipt(trials: seq<Trial>, receipts: seq<Receipt>, families: map<string, string>, ledger: Ledger,
      t: Trial, r: Receipt)
    requires Answered(trials, receipts, families) && Records(ledger, trials, receipts, families)
    requires t in trials && r in receipts && Fits(r, t, families)
    ensures t.id in ledger && ledger[t.id] == Outcome(r.resolved, r.family)
  {
    var q :| q in receipts && Fits(q, t, families) && ledger[t.id] == Outcome(q.resolved, q.family);
    var i :| 0 <= i < |receipts| && receipts[i] == r;
    var j :| 0 <= j < |receipts| && receipts[j] == q;
    ReceiptById(receipts, i, j);
  }

  lemma ResultHasReceipt(trials: seq<Trial>, receipts: seq<Receipt>, families: map<string, string>, ledger: Ledger,
      u: Metered, x: Outcome)
    requires Records(ledger, trials, receipts, families) && x in ResultsOf(trials, ledger, u)
    ensures exists r <- receipts :: UnitAt(r) == u && r.resolved == x.resolved
  {
    ResultsElements(trials, ledger, u, x);
    var t :| t in trials && UnitOf(t) == u && t.id in ledger && ledger[t.id] == x;
    var r :| r in receipts && Fits(r, t, families) && ledger[t.id] == Outcome(r.resolved, r.family);
    assert UnitAt(r) == u;
  }

  lemma ReceiptHasResult(trials: seq<Trial>, receipts: seq<Receipt>, families: map<string, string>, ledger: Ledger,
      r: Receipt)
    requires Answered(trials, receipts, families) && Records(ledger, trials, receipts, families) && r in receipts
    ensures Outcome(r.resolved, r.family) in ResultsOf(trials, ledger, UnitAt(r))
  {
    var t :| t in trials && Fits(r, t, families);
    RecordedReceipt(trials, receipts, families, ledger, t, r);
    assert UnitOf(t) == UnitAt(r);
    ResultsElements(trials, ledger, UnitAt(r), Outcome(r.resolved, r.family));
  }

  ghost predicate SomeResult(results: seq<Outcome>, resolved: Option<bool>) {
    exists x <- results :: x.resolved == resolved
  }

  /** The results of a unit are those of its receipts. */
  lemma ResultsAreReceipts(trials: seq<Trial>, receipts: seq<Receipt>, families: map<string, string>, ledger: Ledger,
      u: Metered, resolved: Option<bool>)
    requires Answered(trials, receipts, families) && Records(ledger, trials, receipts, families)
    ensures SomeResult(ResultsOf(trials, ledger, u), resolved) <==> SomeReceipt(receipts, u, resolved)
  {
    if x :| x in ResultsOf(trials, ledger, u) && x.resolved == resolved {
      ResultHasReceipt(trials, receipts, families, ledger, u, x);
    }
    if r :| r in receipts && UnitAt(r) == u && r.resolved == resolved {
      ReceiptHasResult(trials, receipts, families, ledger, r);
    }
  }

  /** What a summary says rests on accepted receipts. */
  ghost predicate Rests(
    s: Summary, p: Plan, derive: Round -> int, receipts: seq<Receipt>, families: map<string, string>, b: Basis)
  {
    && Accepted(p, derive) && Answered(p.trials, receipts, families)
    && Sound(b) && Founded(b, p, receipts, families) && ReportsAll(s.metrics, Rates(p.comparisons), b)
  }

  /** The value of a unit, told from its receipts. */
  lemma UnitFromReceipts(p: Plan, receipts: seq<Receipt>, families: map<string, string>, b: Basis, u: Metered)
    requires Answered(p.trials, receipts, families) && Founded(b, p, receipts, families) && u in b.units
    ensures b.units[u].all == if SomeReceipt(receipts, u, Some(true)) then 1.0 else 0.0
    ensures b.units[u].valid == if SomeReceipt(receipts, u, None) then None else Some(b.units[u].all)
  {
    var results := ResultsOf(p.trials, b.ledger, u);
    assert IsValueOf(b.units[u], results);
    ResultsAreReceipts(p.trials, receipts, families, b.ledger, u, Some(true));
    ResultsAreReceipts(p.trials, receipts, families, b.ledger, u, None);
    assert AnyResolved(results) == SomeResult(results, Some(true));
    assert AllMeasured(results) == !SomeResult(results, None);
  }

  lemma ReceiptHasUnit(p: Plan, derive: Round -> int, receipts: seq<Receipt>, families: map<string, string>,
      b: Basis, u: Metered, resolved: Option<bool>)
    requires Accepted(p, derive) && Answered(p.trials, receipts, families) && Founded(b, p, receipts, families)
    requires SomeReceipt(receipts, u, resolved)
    ensures u in b.units
  {
    var r :| r in receipts && UnitAt(r) == u && r.resolved == resolved;
    var t :| t in p.trials && Fits(r, t, families);
    assert SlotOf(t) in Slots(p.trials);
    ProductMeaning(p, SlotOf(t));
    assert Planned(p, u);
  }

  /** A unit succeeds without a valid value exactly if its receipts are mixed. */
  lemma MixedUnit(p: Plan, derive: Round -> int, receipts: seq<Receipt>, families: map<string, string>, b: Basis,
      u: Metered)
    requires Accepted(p, derive) && Answered(p.trials, receipts, families) && Founded(b, p, receipts, families)
    ensures Mixed(receipts, u) <==> u in b.units && b.units[u].valid.None? && b.units[u].all != 0.0
  {
    if u in b.units {
      UnitFromReceipts(p, receipts, families, b, u);
    } else if Mixed(receipts, u) {
      ReceiptHasUnit(p, derive, receipts, families, b, u, None);
    }
  }

  /** The units of an arm are clear exactly if none of them has mixed receipts. */
  lemma ClearIsUnmixed(p: Plan, derive: Round -> int, receipts: seq<Receipt>, families: map<string, string>, b: Basis,
      arm: Arm)
    requires Accepted(p, derive) && Answered(p.trials, receipts, families)
    requires Indexes(b.order, b.units) && Founded(b, p, receipts, families)
    ensures Clear(b.units, b.order, arm) <==> Unmixed(receipts, arm)
  {
    forall u: Metered
      ensures Mixed(receipts, u) <==> u in b.order && b.units[u].valid.None? && b.units[u].all != 0.0
    {
      MixedUnit(p, derive, receipts, families, b, u);
    }
  }

  /**
   The published rates of an arm and its counts: the valid-only rate is the resolved by the valid units, and
   the all-assigned rate is the resolved by all units exactly if the receipts of no unit are mixed; else it is
   greater, since a unit with a resolved episode succeeds although another episode was not measured.
   */
  lemma PublishedRates(
    s: Summary, p: Plan, derive: Round -> int, receipts: seq<Receipt>, families: map<string, string>, b: Basis,
    n: Counts)
    requires Rests(s, p, derive, receipts, families, b) && CountsOf(n, b.units, b.order, n.arm)
    ensures n.units > 0 && ArmAt(n.arm) + 1 < |s.metrics|
    ensures s.metrics[ArmAt(n.arm) + 1].estimate ==
            if n.valid == 0 then None else Some(n.resolved as real / n.valid as real)
    ensures var rate := s.metrics[ArmAt(n.arm)].estimate;
            && rate.Some? && rate.value >= n.resolved as real / n.units as real
            && (rate.value == n.resolved as real / n.units as real <==> Unmixed(receipts, n.arm))
  {
    var arm := n.arm;
    ArmTotal(b.units, b.order, b.cells, arm);
    ClearIsUnmixed(p, derive, receipts, families, b, arm);
    RatesAreCounts(n, b.units, b.order, arm);
    RateAt(p.comparisons, arm);
    EstimateAt(s.metrics, Rates(p.comparisons), ArmAt(arm), ArmRate(arm, AllAssigned), b);
    EstimateAt(s.metrics, Rates(p.comparisons), ArmAt(arm) + 1, ArmRate(arm, ValidOnly), b);
  }

  /** With one episode to a unit no receipts are mixed. */
  lemma SingleEpisodesAreUnmixed(p: Plan, derive: Round -> int, receipts: seq<Receipt>, families: map<string, string>,
      arm: Arm)
    requires Accepted(p, derive) && p.episodes == 1 && Answered(p.trials, receipts, families)
    ensures Unmixed(receipts, arm)
  {
    forall u: Metered | u.arm == arm
      ensures !Mixed(receipts, u)
    {
      if Mixed(receipts, u) {
        var r :| r in receipts && UnitAt(r) == u && r.resolved == Some(true);
        var q :| q in receipts && UnitAt(q) == u && q.resolved == None;
        OnlyEpisode(p, derive, receipts, families, r, q);
      }
    }
  }

  lemma OnlyEpisode(p: Plan, derive: Round -> int, receipts: seq<Receipt>, families: map<string, string>,
      r: Receipt, q: Receipt)
    requires Accepted(p, derive) && p.episodes == 1 && Answered(p.trials, receipts, families)
    requires r in receipts && q in receipts && UnitAt(r) == UnitAt(q)
    ensures r == q
  {
    var t :| t in p.trials && Fits(r, t, families);
    var u :| u in p.trials && Fits(q, u, families);
    assert SlotOf(t) in Slots(p.trials) && SlotOf(u) in Slots(p.trials);
    ProductMeaning(p, SlotOf(t));
    ProductMeaning(p, SlotOf(u));
    CounterpartExists(p, derive, t);
    assert t == u;
    var i :| 0 <= i < |receipts| && receipts[i] == r;
    var j :| 0 <= j < |receipts| && receipts[j] == q;
    ReceiptById(receipts, i, j);
  }

  /** In a study of single episodes both published rates of an arm are quotients of its published counts. */
  lemma SingleEpisodeRates(
    s: Summary, p: Plan, derive: Round -> int, receipts: seq<Receipt>, families: map<string, string>, b: Basis,
    n: Counts)
    requires Rests(s, p, derive, receipts, families, b) && CountsOf(n, b.units, b.order, n.arm) && p.episodes == 1
    ensures n.units > 0 && ArmAt(n.arm) + 1 < |s.metrics|
    ensures s.metrics[ArmAt(n.arm)].estimate == Some(n.resolved as real / n.units as real)
    ensures s.metrics[ArmAt(n.arm) + 1].estimate ==
            if n.valid == 0 then None else Some(n.resolved as real / n.valid as real)
  {
    SingleEpisodesAreUnmixed(p, derive, receipts, families, n.arm);
    PublishedRates(s, p, derive, receipts, families, b, n);
  }

  // ---------- a study in which they differ ----------

  /** One task, one seed, and two episodes to a unit. */
  function SmallPlan(): Plan {
    Plan(["task"], [0], 2, BestOfK,
         [Trial("a", "task", Base, 0, 0, 7), Trial("b", "task", Base, 0, 1, 8),
          Trial("c", "task", FeatureGrpo, 0, 0, 7), Trial("d", "task", FeatureGrpo, 0, 1, 8)],
         [(Base, FeatureGrpo)])
  }

  /** The base arm resolved once and was not measured once. */
  function SmallReceipts(): seq<Receipt> {
    [Receipt("a", "task", Base, 0, 7, "family", Some(true)), Receipt("b", "task", Base, 0, 8, "family", None),
     Receipt("c", "task", FeatureGrpo, 0, 7, "family", Some(false)),
     Receipt("d", "task", FeatureGrpo, 0, 8, "family", Some(false))]
  }

  function SmallFamilies(): map<string, string> {
    map["task" := "family"]
  }

  /** The unit of the base arm. */
  function SmallUnit(): Metered {
    Metered("task", 0, Base)
  }

  function EpisodeSeed(): Round -> int {
    (r: Round) => r.episode
  }

  function SmallSlots(): seq<Slot> {
    [Slot("task", Base, 0, 0), Slot("task", Base, 0, 1),
     Slot("task", FeatureGrpo, 0, 0), Slot("task", FeatureGrpo, 0, 1)]
  }

  lemma SmallPlanIsFormed()
    ensures Formed(SmallPlan())
  {
    var trials, ids := SmallPlan().trials, ["a", "b", "c", "d"];
    forall k | 0 <= k < 4
      ensures Mapped(IdOf, trials)[k] == ids[k]
    {
      assert IdOf(trials[k]) == ids[k];
    }
  }

  lemma SmallSlotsMeaning(s: Slot)
    ensures s in SmallSlots() <==> s.task == "task" && s.seed == 0 && s.episode < 2
  {
    var slots := SmallSlots();
    if s.task == "task" && s.seed == 0 && s.episode < 2 {
      var k := (if s.arm.Base? then 0 else 2) + s.episode;
      assert s == slots[k];
    }
  }

  lemma SmallSlotsAreMapped()
    ensures Mapped(SlotOf, SmallPlan().trials) == SmallSlots()
  {
    var trials, slots := SmallPlan().trials, SmallSlots();
    assert |trials| == |slots| == 4;
    forall k | 0 <= k < 4
      ensures Mapped(SlotOf, trials)[k] == slots[k]
    {
      assert SlotOf(trials[k]) == slots[k];
    }
  }

  lemma SmallPlanIsComplete()
    ensures Slots(SmallPlan().trials) == Product(SmallPlan()) && |Slots(SmallPlan().trials)| == 4
  {
    var p, slots := SmallPlan(), SmallSlots();
    SmallSlotsAreMapped();
    SlotElements(p.trials);
    assert forall i, j | 0 <= i < j < 4 :: slots[i].arm != slots[j].arm || slots[i].episode != slots[j].episode;
    DistinctSize(slots);
    forall s: Slot
      ensures s in Product(p) <==> s in slots
    {
      ProductMeaning(p, s);
      SmallSlotsMeaning(s);
      assert s.seed in p.seeds <==> s.seed == 0;
      assert s.task in p.tasks <==> s.task == "task";
    }
  }

  lemma SmallPlanIsPaired()
    ensures Paired(SmallPlan().trials) && Spread(SmallPlan().trials, EpisodeSeed())
  {
    forall t <- SmallPlan().trials
      ensures RoundOf(t) == Round("task", 0, t.episode) && t.caseSeed == 7 + t.episode
      ensures EpisodeSeed()(RoundOf(t)) == t.episode
    {}
  }

  lemma SmallReceiptsAnswer()
    ensures Answered(SmallPlan().trials, SmallReceipts(), SmallFamilies())
  {
    var trials, receipts, ids := SmallPlan().trials, SmallReceipts(), ["a", "b", "c", "d"];
    forall k | 0 <= k < 4
      ensures Mapped(ReceiptId, receipts)[k] == ids[k]
    {
      assert ReceiptId(receipts[k]) == ids[k];
    }
    forall r <- receipts
      ensures exists t <- trials :: Fits(r, t, SmallFamilies())
    {
      var k :| 0 <= k < 4 && receipts[k] == r;
      assert trials[k] in trials && Fits(r, trials[k], SmallFamilies());
    }
  }

  /** The study is accepted and its receipts are complete. */
  lemma SmallStudyIsAccepted()
    ensures Formed(SmallPlan()) && Accepted(SmallPlan(), EpisodeSeed())
    ensures Answered(SmallPlan().trials, SmallReceipts(), SmallFamilies())
  {
    SmallPlanIsFormed();
    SmallPlanIsComplete();
    SmallPlanIsPaired();
    SmallReceiptsAnswer();
  }

  lemma OnlyCell(b: Basis, p: Plan, u: Metered)
    requires Sound(b) && (forall v :: v in b.units <==> Planned(p, v)) && u in b.units
    requires forall v: Metered | Planned(p, v) :: CellOf(v) == CellOf(u)
    ensures b.cells == [CellOf(u)]
  {
    forall c <- b.cells
      ensures c == CellOf(u)
    {
      assert Full(b.units, c);
      assert Planned(p, UnitIn(c, Base)) && CellOf(UnitIn(c, Base)) == c;
    }
    OnlyElement(b.cells, CellOf(u));
  }

  lemma OnlyRate(b: Basis, u: Metered)
    requires Sound(b) && u in b.units && b.cells == [CellOf(u)]
    ensures |ArmItems(b.units, b.order, u.arm, AllAssigned)| == 1
    ensures Sum(ValueOf, ArmItems(b.units, b.order, u.arm, AllAssigned)) == b.units[u].all
  {
    ArmTotal(b.units, b.order, b.cells, u.arm);
    assert b.cells[1..] == [] && UnitIn(CellOf(u), u.arm) == u;
    assert Sum(AllIn(b.units, u.arm), b.cells[1..]) == 0.0;
  }

  lemma OnlyCount(b: Basis, n: Counts, u: Metered)
    requires Sound(b) && u in b.units && b.cells == [CellOf(u)] && CountsOf(n, b.units, b.order, u.arm)
    requires b.units[u].all == 1.0 && b.units[u].valid.None?
    ensures n.units == 1 && n.resolved == 0
  {
    OnlyRate(b, u);
    assert u in b.order && !Clear(b.units, b.order, u.arm);
    AllOutnumberValid(b.units, b.order, u.arm);
  }

  /** If the arms have one unit each and that of one arm is mixed, its rate is one and none is resolved. */
  lemma OnlyUnitIsMixed(
    s: Summary, p: Plan, derive: Round -> int, receipts: seq<Receipt>, families: map<string, string>, b: Basis,
    n: Counts, u: Metered)
    requires Rests(s, p, derive, receipts, families, b) && CountsOf(n, b.units, b.order, u.arm)
    requires Mixed(receipts, u) && forall v: Metered | Planned(p, v) :: CellOf(v) == CellOf(u)
    ensures |s.metrics| > ArmAt(u.arm) && s.metrics[ArmAt(u.arm)].estimate == Some(1.0)
    ensures n.units == 1 && n.resolved == 0
  {
    MixedUnit(p, derive, receipts, families, b, u);
    UnitFromReceipts(p, receipts, families, b, u);
    OnlyCell(b, p, u);
    OnlyCount(b, n, u);
    OnlyEstimate(s, p.comparisons, b, u);
  }

  lemma OnlyEstimate(s: Summary, comparisons: seq<(Arm, Arm)>, b: Basis, u: Metered)
    requires Sound(b) && ReportsAll(s.metrics, Rates(comparisons), b)
    requires u in b.units && b.cells == [CellOf(u)] && b.units[u].all == 1.0
    ensures |s.metrics| > ArmAt(u.arm) && s.metrics[ArmAt(u.arm)].estimate == Some(1.0)
  {
    OnlyRate(b, u);
    RateAt(comparisons, u.arm);
    MeanAt(s.metrics, Rates(comparisons), ArmAt(u.arm), ArmRate(u.arm, AllAssigned), b);
  }

  lemma SmallUnitIsMixed()
    ensures Mixed(SmallReceipts(), SmallUnit())
  {
    var receipts := SmallReceipts();
    assert receipts[0] in receipts && receipts[1] in receipts;
  }

  lemma SmallPlanHasOneCell()
    ensures forall v: Metered | Planned(SmallPlan(), v) :: CellOf(v) == CellOf(SmallUnit())
  {}

  /** On that study every summary gives the base arm the rate one, with one unit, which is not resolved. */
  lemma SmallStudyDiffers(s: Summary, b: Basis, n: Counts)
    requires Rests(s, SmallPlan(), EpisodeSeed(), SmallReceipts(), SmallFamilies(), b)
    requires CountsOf(n, b.units, b.order, SmallUnit().arm)
    ensures SmallUnit().arm == Base && |s.metrics| > 0
    ensures s.metrics[0].estimate == Some(1.0) && n.units == 1 && n.resolved == 0
  {
    SmallUnitIsMixed();
    SmallPlanHasOneCell();
    OnlyUnitIsMixed(
      s, SmallPlan(), EpisodeSeed(), SmallReceipts(), SmallFamilies(), b, n, SmallUnit());
  }
}
