/**
 Frozen dependency locks: the checks on a task, what a request identity determines, when an offline replay
 accepts a lock, and how the request cache agrees with the search it saves.
 */
module Lock {
  import opened Text
  import opened Requirements
  import opened Closure
  import opened Search
  import opened Asking
  import opened Wheels
  import opened Recipes
  import opened Catalog
  import opened Solver

  /** A system package that a candidate asks for, perhaps in one version. */
  datatype SystemPackage = SystemPackage(name: string, version: Option<string>)

  /**
   Declarations inferred from one candidate source; hashes are under canonical names, and `rest` is
   everything inferred besides.
   */
  datatype Metadata = Metadata(
    project: string, build: seq<Requirement>, requirements: seq<Requirement>, constraints: seq<Requirement>,
    hashes: map<string, seq<string>>, backend: string, system: seq<SystemPackage>, python: set<Clause>,
    versions: seq<string>, rest: string)

  /**
   What the frozen task contributes: its recipe, runtime target, allowed artifacts and policy caps.
   `original` is inferred from the baseline source, if that can be read.
   */
  datatype Task = Task(
    pkg: Packaging, reader: Reader, recipe: Recipe, original: Option<Metadata>, artifacts: set<string>,
    tags: set<string>, interpreter: string, packages: map<string, string>, forbidden: bool,
    maxBytes: nat, maxDisk: nat)

  function HashSets(m: Metadata): map<string, set<string>> {
    map n | n in m.hashes :: (set h <- m.hashes[n])
  }

  function PinsOf(baseline: seq<BaselinePin>): seq<Pin> {
    if baseline == [] then [] else [baseline[0].pin] + PinsOf(baseline[1..])
  }

  function ArtifactsOf(baseline: seq<BaselinePin>): set<string> {
    set b <- baseline :: b.artifact
  }

  /** Unless artifacts are restricted, any will do. */
  function AllowedArtifacts(task: Task): Option<set<string>> {
    if task.forbidden || task.artifacts != {} then Some(ArtifactsOf(task.recipe.pins) + task.artifacts) else None
  }

  function ProblemFor(m: Metadata, task: Task): Problem {
    Problem(task.pkg, m.build + m.requirements, m.constraints, HashSets(m), AllowedArtifacts(task), task.tags,
            task.interpreter, task.forbidden, PinsOf(task.recipe.pins), task.maxBytes, task.maxDisk)
  }

  // ---------- the request identity ----------

  /** The declarations as the request identity hashes them (`_semantic_dependencies`). */
  datatype Semantics = Semantics(
    build: set<Key>, requirements: set<Key>, constraints: set<Key>, hashes: map<string, set<string>>,
    backend: string, system: set<SystemPackage>)

  /** What it hashes of the task: of the baseline pins, only which artifacts they name. */
  datatype Target = Target(
    pkg: Packaging, reader: Reader, allowed: Option<set<string>>, tags: set<string>, interpreter: string,
    packages: map<string, string>, forbidden: bool, maxBytes: nat, maxDisk: nat)

  datatype Request = Request(semantics: Semantics, target: Target)

  function SemanticDependencies(pkg: Packaging, m: Metadata): Semantics {
    Semantics(KeysOf(pkg, m.build), KeysOf(pkg, m.requirements), KeysOf(pkg, m.constraints), HashSets(m),
              m.backend, set s <- m.system)
  }

  function RequestOf(m: Metadata, task: Task): Request {
    Request(SemanticDependencies(task.pkg, m),
            Target(task.pkg, task.reader, AllowedArtifacts(task), task.tags, task.interpreter, task.packages,
                   task.forbidden, task.maxBytes, task.maxDisk))
  }

  function BaselinePins(task: Task): map<string, Pin> {
    FirstPins(task.pkg, PinsOf(task.recipe.pins))
  }

  /**
   What a request determines: the query, whatever the order and repetition of the declarations, exactly
   if the two tasks do not restrict dependencies to baseline pins or pin every name alike.
   */
  lemma RequestDeterminesQuery(a: Metadata, s: Task, b: Metadata, t: Task)
    requires RequestOf(a, s) == RequestOf(b, t)
    ensures Canonical(ProblemFor(a, s)) == Canonical(ProblemFor(b, t)) <==>
              (s.forbidden ==> BaselinePins(s) == BaselinePins(t))
  {
    KeysOfAppend(s.pkg, a.build, a.requirements);
    KeysOfAppend(t.pkg, b.build, b.requirements);
  }

  // ---------- the checks on a task ----------

  /** Pins say what their artifacts hold, no two of them pin one name, and restricted tasks allow no others. */
  ghost predicate Genuine(task: Task) {
    && (forall b <- task.recipe.pins :: CanonicalPin(task.pkg, b.pin) == Described(task.reader.store, b.artifact))
    && (forall i, j | 0 <= i < j < |task.recipe.pins| ::
          task.pkg.canonicalizeName(task.recipe.pins[i].pin.name) !=
          task.pkg.canonicalizeName(task.recipe.pins[j].pin.name))
    && (task.forbidden ==> task.artifacts == {})
  }

  /** The task passes the checks that every request begins with. */
  ghost predicate Checked(task: Task) {
    && ValidRecipe(task.pkg, task.reader.store, task.maxBytes, task.recipe)
    && (task.forbidden ==> task.artifacts == {})
  }

  /** Its evidence was left by a construction. */
  ghost predicate Evidenced(task: Task) {
    Trusted(task.pkg, task.reader.store, task.recipe.evidence)
  }

  lemma CheckedIsGenuine(task: Task)
    requires Checked(task) && Evidenced(task)
    ensures Genuine(task)
  {
    forall b <- task.recipe.pins
      ensures CanonicalPin(task.pkg, b.pin) == Described(task.reader.store, b.artifact)
    {
      var i :| 0 <= i < |task.recipe.pins| && task.recipe.pins[i] == b;
      CheckedPinIsGenuine(task.pkg, task.reader.store, task.maxBytes, task.recipe, i);
    }
    forall i, j | 0 <= i < j < |task.recipe.pins|
      ensures task.pkg.canonicalizeName(task.recipe.pins[i].pin.name) !=
              task.pkg.canonicalizeName(task.recipe.pins[j].pin.name)
    {
      CheckedPinsAreApart(task.pkg, task.reader.store, task.maxBytes, task.recipe, i, j);
    }
  }

  /** A name is pinned by the one baseline entry for it. */
  lemma {:induction false} PinnedOnce(pkg: Packaging, baseline: seq<BaselinePin>, k: nat)
    requires k < |baseline|
    requires forall i, j | 0 <= i < j < |baseline| ::
               pkg.canonicalizeName(baseline[i].pin.name) != pkg.canonicalizeName(baseline[j].pin.name)
    ensures var pins, n := FirstPins(pkg, PinsOf(baseline)), pkg.canonicalizeName(baseline[k].pin.name);
            n in pins && pins[n] == CanonicalPin(pkg, baseline[k].pin)
  {
    if k > 0 {
      PinnedOnce(pkg, baseline[1..], k - 1);
      assert pkg.canonicalizeName(baseline[0].pin.name) != pkg.canonicalizeName(baseline[k].pin.name);
    }
    assert PinsOf(baseline)[1..] == PinsOf(baseline[1..]);
  }

  lemma {:induction false} PinnedBySome(pkg: Packaging, baseline: seq<BaselinePin>, n: string)
    requires n in FirstPins(pkg, PinsOf(baseline))
    ensures exists b <- baseline :: pkg.canonicalizeName(b.pin.name) == n
  {
    assert PinsOf(baseline)[1..] == PinsOf(baseline[1..]);
    if pkg.canonicalizeName(baseline[0].pin.name) != n {
      PinnedBySome(pkg, baseline[1..], n);
      assert forall b <- baseline[1..] :: b in baseline;
    } else {
      assert baseline[0] in baseline;
    }
  }

  lemma PinsFollow(s: Task, t: Task)
    requires Genuine(s) && Genuine(t) && s.pkg == t.pkg && s.reader == t.reader
    requires ArtifactsOf(s.recipe.pins) <= ArtifactsOf(t.recipe.pins)
    ensures forall n <- BaselinePins(s) :: n in BaselinePins(t) && BaselinePins(s)[n] == BaselinePins(t)[n]
  {
    forall n <- BaselinePins(s)
      ensures n in BaselinePins(t) && BaselinePins(s)[n] == BaselinePins(t)[n]
    {
      PinnedBySome(s.pkg, s.recipe.pins, n);
      var b :| b in s.recipe.pins && s.pkg.canonicalizeName(b.pin.name) == n;
      var i :| 0 <= i < |s.recipe.pins| && s.recipe.pins[i] == b;
      assert b.artifact in ArtifactsOf(t.recipe.pins);
      var c :| c in t.recipe.pins && c.artifact == b.artifact;
      var j :| 0 <= j < |t.recipe.pins| && t.recipe.pins[j] == c;
      PinnedOnce(s.pkg, s.recipe.pins, i);
      PinnedOnce(t.pkg, t.recipe.pins, j);
    }
  }

  lemma GenuineTasksShare(a: Metadata, s: Task, b: Metadata, t: Task)
    requires Genuine(s) && Genuine(t) && RequestOf(a, s) == RequestOf(b, t)
    ensures Canonical(ProblemFor(a, s)) == Canonical(ProblemFor(b, t))
  {
    if s.forbidden {
      assert AllowedArtifacts(s) == Some(ArtifactsOf(s.recipe.pins) + {});
      assert AllowedArtifacts(t) == Some(ArtifactsOf(t.recipe.pins) + {});
      PinsFollow(s, t);
      PinsFollow(t, s);
      assert BaselinePins(s) == BaselinePins(t);
    }
    RequestDeterminesQuery(a, s, b, t);
  }

  /** Checked tasks with the same request pin every name alike, so they ask the same query. */
  lemma CheckedTasksShare(a: Metadata, s: Task, b: Metadata, t: Task)
    requires Checked(s) && Evidenced(s) && Checked(t) && Evidenced(t) && RequestOf(a, s) == RequestOf(b, t)
    ensures Canonical(ProblemFor(a, s)) == Canonical(ProblemFor(b, t))
  {
    CheckedIsGenuine(s);
    CheckedIsGenuine(t);
    GenuineTasksShare(a, s, b, t);
  }

  /** Order-independence: candidates that share a request get the same answer from every provider. */
  lemma SharedRequestSharesAnswer(a: Metadata, s: Task, b: Metadata, t: Task, offers: Offers, roster: set<string>)
    requires Bounded(offers, roster)
    requires Checked(s) && Evidenced(s) && Checked(t) && Evidenced(t) && RequestOf(a, s) == RequestOf(b, t)
    ensures Listed(Answer(Canonical(ProblemFor(a, s)), offers, roster)) ==
            Listed(Answer(Canonical(ProblemFor(b, t)), offers, roster))
  {
    CheckedTasksShare(a, s, b, t);
  }

  // ---------- a roster as a list ----------

  lemma {:induction false} AlongAt(sel: Selection, names: seq<string>)
    requires forall n <- names :: n in sel
    ensures |Along(sel, names)| == |names|
    ensures forall i | 0 <= i < |names| :: Along(sel, names)[i] == sel[names[i]]
  {
    if names == [] {
      assert Along(sel, names) == [];
    } else {
      AlongAt(sel, names[1..]);
    }
  }

  ghost predicate WellNamed(sel: Selection) {
    forall n <- sel :: sel[n].name == n
  }

  /** The wheels of a list by name. */
  ghost predicate Indexes(byName: Selection, records: seq<Wheel>) {
    WellNamed(byName) && (forall n <- byName :: byName[n] in records) && forall w <- records :: w.name in byName
  }

  /** A later wheel of the same name replaces an earlier one. */
  method ByName(records: seq<Wheel>) returns (byName: Selection)
    ensures Indexes(byName, records)
  {
    byName := map[];
    for i := 0 to |records|
      invariant WellNamed(byName) && forall n <- byName :: byName[n] in records
      invariant forall w <- records[..i] :: w.name in byName
    {
      PrefixNext(records, i);
      byName := byName[records[i].name := records[i]];
    }
    assert records[..|records|] == records;
  }

  /** The list of a selection determines it. */
  lemma InOrderByName(sel: Selection, records: seq<Wheel>, byName: Selection)
    requires WellNamed(sel) && records == InOrder(sel) && Indexes(byName, records)
    ensures byName == sel && |byName| == |records|
  {
    var names := Sorted(sel.Keys);
    AlongAt(sel, names);
    forall n <- byName
      ensures n in sel && byName[n] == sel[n]
    {
      var i :| 0 <= i < |records| && records[i] == byName[n];
      assert names[i] in sel;
    }
    forall n <- sel
      ensures n in byName
    {
      var i :| 0 <= i < |names| && names[i] == n;
      assert records[i] in records;
    }
    assert byName.Keys == sel.Keys;
  }

  /** A selection is listed without repetition, and nothing else is listed. */
  lemma InOrderDistinct(sel: Selection)
    requires WellNamed(sel)
    ensures DistinctWheels(InOrder(sel))
    ensures forall w <- InOrder(sel) :: w.name in sel && sel[w.name] == w
  {
    var names := Sorted(sel.Keys);
    AlongAt(sel, names);
    SortedAscends(sel.Keys);
    forall i, j | 0 <= i < j < |names|
      ensures names[i] != names[j]
    {
      LessIrreflexive(names[i]);
    }
    forall i | 0 <= i < |names|
      ensures InOrder(sel)[i].name == names[i] && names[i] in sel
    {
      assert names[i] in names;
    }
  }

  /** `records` lists an acceptable, nonempty dependency closure in name order. */
  ghost predicate IsExactRoster(q: Query, records: seq<Wheel>) {
    exists sel: Selection :: records == InOrder(sel) && sel != map[] && Acceptable(q, sel)
  }

  lemma ListedFound(q: Query, roster: Selection, records: seq<Wheel>)
    requires WellNamed(roster) && !Malformed(q) && records != []
    ensures Bounded(RosterOffers(roster), roster.Keys)
    ensures Listed(Answer(q, RosterOffers(roster), roster.Keys)) == Roster(records) ==> IsExactRoster(q, records)
  {
    RosterOffersProperties(q, roster);
    SolveIsSound(q, RosterOffers(roster), roster.Keys);
  }

  lemma ExactRosterShape(q: Query, records: seq<Wheel>, byName: Selection)
    requires Indexes(byName, records)
    ensures IsExactRoster(q, records) ==> |byName| == |records| && records != []
  {
    if IsExactRoster(q, records) {
      var sel: Selection :| records == InOrder(sel) && sel != map[] && Acceptable(q, sel);
      InOrderByName(sel, records, byName);
    }
  }

  lemma ExactRosterReplays(q: Query, records: seq<Wheel>, byName: Selection)
    requires Indexes(byName, records) && !Malformed(q) && IsExactRoster(q, records)
    ensures Bounded(RosterOffers(byName), byName.Keys)
    ensures Listed(Answer(q, RosterOffers(byName), byName.Keys)) == Roster(records)
  {
    var sel: Selection :| records == InOrder(sel) && sel != map[] && Acceptable(q, sel);
    InOrderByName(sel, records, byName);
    ReplayFinds(q, sel);
  }

  /** Replays a frozen roster offline; accepts exactly the exact rosters of requests that can be evaluated. */
  method ReplayRoster(p: Problem, records: seq<Wheel>) returns (accepted: bool)
    requires ClausesKeepMeaning(p.pkg) && SafeDeclarations(p)
    ensures accepted <==> !Malformed(Canonical(p)) && IsExactRoster(Canonical(p), records)
  {
    ghost var q := Canonical(p);
    var byName := ByName(records);
    ExactRosterShape(q, records, byName);
    if |byName| != |records| || records == [] {
      return false;
    }
    var solved := Solve(p, Archive(byName));
    if !Malformed(q) {
      ListedFound(q, byName, records);
      if IsExactRoster(q, records) {
        ExactRosterReplays(q, records, byName);
      }
    }
    return solved == Roster(records);
  }

  // ---------- freezing ----------

  /** A retained resolution: the selected wheels or the recorded absence of a closure, and the pages that were read. */
  datatype Frozen = Frozen(wheels: seq<Wheel>, failed: bool, snapshot: map<string, Response>)

  datatype Verdict = Resolved(wheels: seq<Wheel>) | NotAvailable | Rejection(error: Error)

  function FrozenFor(r: SolveResult, snapshot: map<string, Response>): Frozen
    requires !r.Denied?
  {
    match r
    case Roster(wheels) => Frozen(wheels, false, snapshot)
    case NoRoster => Frozen([], true, snapshot)
  }

  lemma OfferedHasProvenance(pkg: Packaging, reg: Registry, n: string, w: Wheel)
    requires Keeps(reg.reader) && Supplied(RegistryOffers(pkg, reg), n, w)
    ensures Page(reg, n).Some? && w.name == n
    ensures exists f <- Page(reg, n).value :: Pinned(reg.reader.store, f, w)
  {
    var keys, hashes, pre :| w in RegistryOffers(pkg, reg)(n, keys, hashes, pre).wheels;
    OffersAre(pkg, reg, n, keys, hashes, pre);
    var files := Sequence(Page(reg, n).value, pre || AnyPrereleaseKey(pkg, keys));
    SequenceElements(Page(reg, n).value, pre || AnyPrereleaseKey(pkg, keys));
    AcquiredFrom(Inspector(reg.reader), files, hashes, PassingKeys(pkg, keys));
    var f :| f in files && Inspector(reg.reader)(f) == Usable(w);
    PageConfirms(reg.reader, n, ResponseTo(reg, n));
    InspectedIsPinned(reg.reader, f);
    assert f in Page(reg, n).value && Pinned(reg.reader.store, f, w);
  }

  /** The pages a catalog has read, as it retained them. */
  ghost function SnapshotOf(c: RegistryCatalog): map<string, Response>
    reads c
  {
    map n | n in c.indexes && n in c.retained :: c.retained[n]
  }

  /** What a search selected from the registry has its provenance in the pages that were read. */
  lemma FrozenIsValid(q: Query, c: RegistryCatalog, sel: Selection)
    requires c.Valid() && c.pkg == q.pkg && Keeps(c.reader)
    requires var offers, roster := RegistryOffers(q.pkg, c.World()), Known(c.World());
             && Bounded(offers, roster) && Answer(q, offers, roster) == Solved(sel)
             && Asked(q, offers, roster, map[]) <= c.visited
    ensures ValidSnapshot(c.reader, SnapshotOf(c), InOrder(sel))
  {
    var offers, roster := RegistryOffers(q.pkg, c.World()), Known(c.World());
    SolveIsSound(q, offers, roster);
    SelectedWasAsked(q, offers, roster, map[]);
    assert WellNamed(sel) by {
      assert forall n <- sel :: Permitted(q, n, sel[n]);
    }
    InOrderDistinct(sel);
    forall w <- InOrder(sel)
      ensures Provenance(c.reader, SnapshotOf(c), w)
    {
      assert Supplied(offers, w.name, sel[w.name]);
      OfferedHasProvenance(q.pkg, c.World(), w.name, w);
      assert c.Visited(w.name);
    }
  }

  /** The pages that a catalog has read. */
  method Freeze(c: RegistryCatalog) returns (snapshot: map<string, Response>)
    requires c.Valid()
    ensures snapshot == SnapshotOf(c)
  {
    snapshot := map n | n in c.indexes && n in c.retained :: c.retained[n];
  }

  /** The answer of a search over all that the registry could be asked. */
  ghost function RegistryAnswer(p: Problem, c: RegistryCatalog): SolveResult {
    Listed(Answer(Canonical(p), OffersOf(Live(c), p.pkg), RosterOf(Live(c))))
  }

  /**
   The first resolution of a request.  The answer is that of the search over all that the registry could
   have been asked, hence also over what was retained of it, and what it selects has its provenance in
   the snapshot.
   */
  method Resolve(p: Problem, c: RegistryCatalog) returns (r: SolveResult, snapshot: map<string, Response>)
    requires ClausesKeepMeaning(p.pkg) && SafeDeclarations(p)
    requires c.Valid() && c.pkg == p.pkg && Keeps(c.reader)
    modifies c
    ensures c.Valid() && r == RegistryAnswer(p, c)
    ensures Bounded(RegistryOffers(p.pkg, c.View()), Known(c.World()))
    ensures r == Listed(Answer(Canonical(p), RegistryOffers(p.pkg, c.View()), Known(c.World())))
    ensures r.Roster? ==> ValidSnapshot(c.reader, snapshot, r.wheels)
    ensures r.NoRoster? ==> ValidSnapshot(c.reader, snapshot, [])
  {
    r := Solve(p, Live(c));
    ghost var q := Canonical(p);
    ViewIsBounded(p.pkg, c);
    if !Malformed(q) {
      ViewDetermines(q, c, Known(c.World()));
    }
    snapshot := Freeze(c);
    AllRead(c);
    if r.Roster? {
      FrozenIsValid(q, c, Answer(q, RegistryOffers(p.pkg, c.World()), Known(c.World())).selection);
    }
  }

  lemma AllRead(c: RegistryCatalog)
    requires c.Valid()
    ensures ValidSnapshot(c.reader, SnapshotOf(c), [])
  {
    forall n <- SnapshotOf(c)
      ensures PageOf(c.reader, n, SnapshotOf(c)[n]).Some?
    {
      assert Page(c.World(), n) == Some(c.indexes[n]);
    }
  }

  /** Projects that were not asked for count as absent, so a view has wheels for no new names. */
  lemma ViewIsBounded(pkg: Packaging, c: RegistryCatalog)
    requires c.Valid()
    ensures Bounded(RegistryOffers(pkg, c.World()), Known(c.World()))
    ensures Bounded(RegistryOffers(pkg, c.View()), Known(c.World()))
  {
    RegistryIsBounded(pkg, c.World());
    RegistryIsBounded(pkg, c.View());
    forall n, keys: set<Key>, hashes, pre | n !in Known(c.World())
      ensures RegistryOffers(pkg, c.View())(n, keys, hashes, pre).wheels == []
    {
      if n in Known(c.View()) {
        assert ResponseTo(c.View(), n) == ResponseTo(c.World(), n);
        SameResponseAgrees(pkg, c.World(), c.View(), n);
      }
    }
  }

  // ---------- replaying a lock ----------

  /** What reading a retained resolution for another candidate gives (`read_dependency_resolution`). */
  ghost function LockVerdict(q: Query, reader: Reader, f: Frozen): Verdict {
    if !ValidSnapshot(reader, f.snapshot, f.wheels) then Rejection(PolicyRejected)
    else if f.failed then if f.wheels != [] then Rejection(PolicyRejected) else NotAvailable
    else if !Malformed(q) && IsExactRoster(q, f.wheels) then Resolved(f.wheels)
    else Rejection(PolicyRejected)
  }

  method ReadLock(p: Problem, reader: Reader, f: Frozen) returns (v: Verdict)
    requires ClausesKeepMeaning(p.pkg) && SafeDeclarations(p)
    ensures v == LockVerdict(Canonical(p), reader, f)
  {
    var valid := ValidateSnapshot(reader, f.snapshot, f.wheels);
    if !valid {
      return Rejection(PolicyRejected);
    }
    if f.failed {
      return if f.wheels != [] then Rejection(PolicyRejected) else NotAvailable;
    }
    var accepted := ReplayRoster(p, f.wheels);
    return if accepted then Resolved(f.wheels) else Rejection(PolicyRejected);
  }

  /** What a lock written for `q` satisfies. */
  ghost predicate Sound(q: Query, reader: Reader, f: Frozen) {
    && ValidSnapshot(reader, f.snapshot, f.wheels)
    && if f.failed then f.wheels == [] else f.wheels != [] ==> IsExactRoster(q, f.wheels)
  }

  /** Reading a lock that was written for the same query: only an empty roster is refused. */
  function Replayed(f: Frozen): Verdict {
    if f.failed then NotAvailable else if f.wheels == [] then Rejection(PolicyRejected) else Resolved(f.wheels)
  }

  lemma SoundIsReplayed(q: Query, reader: Reader, f: Frozen)
    requires Sound(q, reader, f) && !Malformed(q)
    ensures LockVerdict(q, reader, f) == Replayed(f)
  {
    EmptyIsNoRoster(q);
  }

  lemma EmptyIsNoRoster(q: Query)
    ensures !IsExactRoster(q, [])
  {
    forall sel: Selection | InOrder(sel) == []
      ensures sel == map[]
    {
      AlongAt(sel, Sorted(sel.Keys));
      assert |sel.Keys| == 0;
    }
  }

  lemma FrozenIsSound(q: Query, offers: Offers, roster: set<string>, reader: Reader, snapshot: map<string, Response>)
    requires Bounded(offers, roster)
    requires var r := Listed(Answer(q, offers, roster));
             !r.Denied? && ValidSnapshot(reader, snapshot, FrozenFor(r, snapshot).wheels)
    ensures Sound(q, reader, FrozenFor(Listed(Answer(q, offers, roster)), snapshot)) && !Malformed(q)
  {
    SolveIsSound(q, offers, roster);
    var o := Answer(q, offers, roster);
    if o.Solved? && InOrder(o.selection) != [] {
      assert o.selection != map[];
    }
  }

  // ---------- what is kept for a candidate ----------

  /** The resolution kept for one candidate: the request it was made for, its wheels and its runtime profile. */
  datatype Candidate = Candidate(request: string, wheels: seq<Wheel>, profile: string)

  /** What a request for dependencies ends with. */
  datatype Outcome = Granted(candidate: Candidate) | Unresolved | Refused(error: Error)

  /** A candidate source of a task. */
  datatype Owner = Owner(metadata: Metadata, task: Task)

  /** The runtime profile of a candidate with these wheels, if it is within bounds; it lists at least one. */
  type Profiles = (Owner, seq<Wheel>) -> Option<string>

  /** The candidate's resolution, once it is known which wheels it has (`_resolution`). */
  function Profiled(make: Profiles, o: Owner, request: string, v: Verdict): Outcome {
    match v
    case Resolved(wheels) =>
      (match make(o, wheels)
       case Some(profile) => Granted(Candidate(request, wheels, profile))
       case None => Unresolved)
    case NotAvailable => Unresolved
    case Rejection(e) => Refused(e)
  }

  /** What the answer of a first search leads to. */
  function Answered(r: SolveResult): Verdict {
    match r
    case Roster(wheels) => Resolved(wheels)
    case NoRoster => NotAvailable
    case Denied(e) => if e.Unavailable? then NotAvailable else Rejection(e)
  }

  function RequestFor(o: Owner): Request {
    RequestOf(o.metadata, o.task)
  }

  function ProblemOf(o: Owner): Problem {
    ProblemFor(o.metadata, o.task)
  }

  ghost function QueryOf(o: Owner): Query {
    Canonical(ProblemOf(o))
  }

  // ---------- the checks on a candidate ----------

  predicate SafeMetadata(pkg: Packaging, m: Metadata) {
    && (forall r <- m.build :: pkg.safe(r)) && (forall r <- m.requirements :: pkg.safe(r))
    && forall r <- m.constraints :: pkg.safe(r)
  }

  /** The candidate runs on the task's interpreter, and the system packages it asks for are there. */
  predicate RuntimeFits(m: Metadata, task: Task) {
    && Matches(task.pkg, m.python, task.interpreter)
    && (m.versions == [] || exists v <- m.versions :: task.interpreter == v || v + "." <= task.interpreter)
    && forall s <- m.system ::
         s.name in task.packages && (s.version.Some? ==> task.packages[s.name] == s.version.value)
  }

  /** Why a candidate is turned away before anything is looked up (`recipe`, `_candidate_inputs`). */
  ghost function Refusal(o: Owner): Option<Outcome> {
    var m, task := o.metadata, o.task;
    if !ValidRecipe(task.pkg, task.reader.store, task.maxBytes, task.recipe) then Some(Refused(PolicyRejected))
    else if task.forbidden && task.artifacts != {} then Some(Refused(SourceRejected))
    else if task.pkg.canonicalizeName(m.project) != task.pkg.canonicalizeName(task.recipe.profile.project) then
      Some(Refused(SourceRejected))
    else if !SafeMetadata(task.pkg, m) then Some(Refused(SourceRejected))
    else if task.forbidden && (task.original.None? || !SafeMetadata(task.pkg, task.original.value)) then
      Some(Refused(PolicyRejected))
    else if task.forbidden && SemanticDependencies(task.pkg, m) != SemanticDependencies(task.pkg, task.original.value)
    then Some(Refused(SourceRejected))
    else if !RuntimeFits(m, task) then Some(Unresolved)
    else None
  }

  method CheckInputs(o: Owner) returns (refusal: Option<Outcome>)
    ensures refusal == Refusal(o)
  {
    var m, task := o.metadata, o.task;
    var valid := ValidateRecipe(task.pkg, task.reader.store, task.maxBytes, task.recipe);
    if !valid {
      return Some(Refused(PolicyRejected));
    }
    if task.forbidden && task.artifacts != {} {
      return Some(Refused(SourceRejected));
    }
    if task.pkg.canonicalizeName(m.project) != task.pkg.canonicalizeName(task.recipe.profile.project) {
      return Some(Refused(SourceRejected));
    }
    if !SafeMetadata(task.pkg, m) {
      return Some(Refused(SourceRejected));
    }
    if task.forbidden {
      if task.original.None? || !SafeMetadata(task.pkg, task.original.value) {
        return Some(Refused(PolicyRejected));
      }
      if SemanticDependencies(task.pkg, m) != SemanticDependencies(task.pkg, task.original.value) {
        return Some(Refused(SourceRejected));
      }
    }
    return if RuntimeFits(m, task) then None else Some(Unresolved);
  }

  /** What is not turned away is safe, and of a task whose pins say what their artifacts hold. */
  lemma AdmittedIsSound(o: Owner)
    requires Refusal(o).None? && Evidenced(o.task)
    ensures Genuine(o.task) && SafeDeclarations(ProblemOf(o))
  {
    CheckedIsGenuine(o.task);
  }

  /** A candidate that must not change dependencies, and is not turned away, asks what its baseline asks. */
  lemma RestrictedAsksItsBaseline(o: Owner)
    requires Refusal(o).None? && o.task.forbidden
    ensures o.task.original.Some?
    ensures RequestFor(o) == RequestOf(o.task.original.value, o.task)
    ensures QueryOf(o) == Canonical(ProblemFor(o.task.original.value, o.task))
  {
    RequestDeterminesQuery(o.metadata, o.task, o.task.original.value, o.task);
  }

  // ---------- the request cache ----------

  /** A lock written for one owner of a request is good for this one. */
  ghost predicate GoodFor(o: Owner, f: Frozen) {
    Genuine(o.task) && !Malformed(QueryOf(o)) && Sound(QueryOf(o), o.task.reader, f)
  }

  /** That, as a value. */
  ghost function Good(): (Owner, Frozen) -> bool {
    (o: Owner, f: Frozen) => GoodFor(o, f)
  }

  lemma GoodMeans(o: Owner, f: Frozen)
    ensures Good()(o, f) <==> GoodFor(o, f)
  {}

  /** A lock that is good for one candidate is good for every other one of its request, of whatever checked task. */
  lemma GoodForAll(o: Owner, f: Frozen, other: Owner)
    requires GoodFor(o, f) && Checked(other.task) && Evidenced(other.task) && RequestFor(o) == RequestFor(other)
    ensures GoodFor(other, f)
  {
    CheckedIsGenuine(other.task);
    GoodForGenuine(o, f, other);
  }

  lemma GoodForGenuine(o: Owner, f: Frozen, other: Owner)
    requires GoodFor(o, f) && Genuine(other.task) && RequestFor(o) == RequestFor(other)
    ensures GoodFor(other, f)
  {
    GenuineTasksShare(o.metadata, o.task, other.metadata, other.task);
  }

  lemma AnswerIsGood(o: Owner, c: RegistryCatalog, snapshot: map<string, Response>)
    requires Genuine(o.task) && c.reader == o.task.reader
    requires var r := RegistryAnswer(ProblemOf(o), c);
             !r.Denied? && ValidSnapshot(c.reader, snapshot, FrozenFor(r, snapshot).wheels)
    ensures GoodFor(o, FrozenFor(RegistryAnswer(ProblemOf(o), c), snapshot))
  {
    FrozenIsSound(QueryOf(o), OffersOf(Live(c), o.task.pkg), RosterOf(Live(c)), o.task.reader, snapshot);
  }

  /** A candidate's entry repeats the lock of its request. */
  predicate Repeats(c: Candidate, locks: map<string, Frozen>) {
    c.request in locks && !locks[c.request].failed && locks[c.request].wheels == c.wheels && c.wheels != []
  }

  // Digests identify what they are made of among the candidates that a controller is ever given.

  /** Equal request identities mean equal requests. */
  ghost predicate IdentifiesRequests(requestId: Owner -> string, family: iset<Owner>) {
    forall a, b | a in family && b in family :: requestId(a) == requestId(b) <==> RequestFor(a) == RequestFor(b)
  }

  /** Equal candidate identities mean equal candidates. */
  ghost predicate IdentifiesCandidates(candidateId: Owner -> string, family: iset<Owner>) {
    forall a, b | a in family && b in family :: candidateId(a) == candidateId(b) ==> a == b
  }

  /** The durable maps from request and candidate identities to what was resolved for them. */
  class RequestCache {
    /** Digests of what a request, and of what a candidate depends on. */
    const requestId: Owner -> string
    const candidateId: Owner -> string
    const make: Profiles
    /** The candidates that this cache may be asked about. */
    ghost const family: iset<Owner>
    /** What is known of a lock that was written for somebody. */
    ghost const good: (Owner, Frozen) -> bool
    var locks: map<string, Frozen>
    var candidates: map<string, Candidate>
    /** For whom locks and entries were first written. */
    ghost var origins: map<string, Owner>
    ghost var owners: map<string, Owner>

    /** Digests identify what they are made of, and an empty roster makes no profile. */
    ghost predicate Lawful() {
      && IdentifiesRequests(requestId, family) && IdentifiesCandidates(candidateId, family)
      && (forall o :: make(o, []).None?)
      && good == Good()
    }

    ghost predicate Valid()
      reads this
    {
      LocksValid() && CandidatesValid()
    }

    ghost predicate LocksValid()
      reads this`locks, this`origins
    {
      && origins.Keys == locks.Keys
      && forall id <- locks ::
           origins[id] in family && requestId(origins[id]) == id && good(origins[id], locks[id])
    }

    ghost predicate CandidatesValid()
      reads this`locks, this`candidates, this`owners
    {
      && owners.Keys == candidates.Keys
      && forall cid <- candidates :: Kept(cid, owners[cid], candidates[cid], locks)
    }

    ghost predicate Kept(cid: string, o: Owner, c: Candidate, locks: map<string, Frozen>) {
      && o in family && candidateId(o) == cid && requestId(o) == c.request
      && Repeats(c, locks) && make(o, c.wheels) == Some(c.profile)
    }

    constructor (requestId: Owner -> string, candidateId: Owner -> string, make: Profiles, ghost family: iset<Owner>)
      ensures Valid() && locks == map[] && candidates == map[] && good == Good() && this.family == family
      ensures this.requestId == requestId && this.candidateId == candidateId && this.make == make
    {
      this.requestId, this.candidateId, this.make, this.family := requestId, candidateId, make, family;
      good := Good();
      locks, candidates, origins, owners := map[], map[], map[], map[];
    }

    /** The entries after the outcome for one candidate. */
    ghost function Entered(before: map<string, Candidate>, o: Owner, r: Outcome): map<string, Candidate> {
      if r.Granted? then before[candidateId(o) := r.candidate] else before
    }

    /** What a verdict about its request comes to for a candidate. */
    function Settled(o: Owner, v: Verdict): Outcome {
      Profiled(make, o, requestId(o), v)
    }

    /** A candidate's entry, if its lock gives it a profile. */
    method Settle(o: Owner, v: Verdict) returns (r: Outcome)
      requires Valid() && o in family && make(o, []).None?
      requires v.Resolved? ==>
               requestId(o) in locks && !locks[requestId(o)].failed && locks[requestId(o)].wheels == v.wheels
      modifies this`candidates, this`owners
      ensures Valid() && r == Settled(o, v) && candidates == Entered(old(candidates), o, r)
    {
      r := Settled(o, v);
      if r.Granted? {
        candidates := candidates[candidateId(o) := r.candidate];
        owners := owners[candidateId(o) := o];
      }
    }

    /** Retains the first answer of a request. */
    method Write(o: Owner, f: Frozen)
      requires Valid() && o in family && requestId(o) !in locks && good(o, f)
      modifies this`locks, this`origins
      ensures Valid() && locks == old(locks)[requestId(o) := f]
    {
      locks, origins := locks[requestId(o) := f], origins[requestId(o) := o];
    }

    /** A lock that another candidate's request wrote is good for this one. */
    lemma LockIsGood(o: Owner)
      requires Valid() && Lawful() && o in family && Genuine(o.task) && requestId(o) in locks
      ensures GoodFor(o, locks[requestId(o)])
    {
      var origin := origins[requestId(o)];
      assert requestId(origin) == requestId(o);
      GoodMeans(origin, locks[requestId(o)]);
      GoodForGenuine(origin, locks[requestId(o)], o);
    }

    /** An entry belongs to the candidate whose identity it is kept under. */
    lemma EntryIsKept(o: Owner)
      requires Valid() && Lawful() && o in family && candidateId(o) in candidates
      ensures Kept(candidateId(o), o, candidates[candidateId(o)], locks)
    {
      assert candidateId(owners[candidateId(o)]) == candidateId(o);
    }

    /** Reads the lock of a request for one of its candidates. */
    method ReadFor(o: Owner) returns (v: Verdict)
      requires Valid() && Lawful() && o in family && ClausesKeepMeaning(o.task.pkg) && Genuine(o.task)
      requires SafeDeclarations(ProblemOf(o)) && requestId(o) in locks
      ensures v == Replayed(locks[requestId(o)])
    {
      var lock := locks[requestId(o)];
      LockIsGood(o);
      SoundIsReplayed(QueryOf(o), o.task.reader, lock);
      v := ReadLock(ProblemOf(o), o.task.reader, lock);
    }

    /** A candidate that was resolved before is checked again, and gets the same resolution. */
    method Revisit(o: Owner) returns (r: Outcome)
      requires Valid() && Lawful() && o in family && ClausesKeepMeaning(o.task.pkg) && Genuine(o.task)
      requires SafeDeclarations(ProblemOf(o)) && candidateId(o) in candidates
      ensures r == Granted(candidates[candidateId(o)])
    {
      var kept := candidates[candidateId(o)];
      EntryIsKept(o);
      var v := ReadFor(o);
      r := Settled(o, v);
      if r != Granted(kept) {
        return Refused(PolicyRejected);
      }
    }

    /** Another candidate of a known request gets the retained answer after it was replayed. */
    method Reuse(o: Owner) returns (r: Outcome)
      requires Valid() && Lawful() && o in family && ClausesKeepMeaning(o.task.pkg) && Genuine(o.task)
      requires SafeDeclarations(ProblemOf(o)) && requestId(o) in locks
      modifies this`candidates, this`owners
      ensures Valid() && r == Settled(o, Replayed(locks[requestId(o)]))
      ensures candidates == Entered(old(candidates), o, r)
    {
      var v := ReadFor(o);
      r := Settle(o, v);
    }

    /** The first candidate of a request: the answer of the search is retained before it is used. */
    method First(o: Owner, c: RegistryCatalog) returns (r: Outcome)
      requires Valid() && Lawful() && o in family && ClausesKeepMeaning(o.task.pkg) && Genuine(o.task)
      requires SafeDeclarations(ProblemOf(o)) && requestId(o) !in locks
      requires c.Valid() && c.pkg == o.task.pkg && c.reader == o.task.reader && Keeps(c.reader)
      modifies this, c
      ensures Valid() && c.Valid()
      ensures r == Settled(o, Answered(RegistryAnswer(ProblemOf(o), c)))
      ensures RetainsFirst(RegistryAnswer(ProblemOf(o), c), requestId(o), old(locks), locks)
      ensures candidates == Entered(old(candidates), o, r)
    {
      var solved, snapshot := Resolve(ProblemOf(o), c);
      if solved.Denied? {
        return Settled(o, Answered(solved));
      }
      AnswerIsGood(o, c, snapshot);
      GoodMeans(o, FrozenFor(solved, snapshot));
      r := RetainFirst(o, solved, snapshot);
    }

    method RetainFirst(o: Owner, solved: SolveResult, snapshot: map<string, Response>) returns (r: Outcome)
      requires Valid() && o in family && requestId(o) !in locks
      requires !solved.Denied? && good(o, FrozenFor(solved, snapshot))
      requires make(o, []).None?
      modifies this
      ensures Valid() && r == Settled(o, Answered(solved))
      ensures RetainsFirst(solved, requestId(o), old(locks), locks) && candidates == Entered(old(candidates), o, r)
    {
      Write(o, FrozenFor(solved, snapshot));
      r := Settle(o, Answered(solved));
    }

    /**
     A known candidate gets what it got; a known request is replayed; and only the answer of a new request,
     which is `found`, is retained.
     */
    ghost predicate Answers(o: Owner, found: SolveResult, r: Outcome, locksBefore: map<string, Frozen>,
        before: map<string, Candidate>)
      reads this
    {
      if candidateId(o) in before then
        r == Granted(before[candidateId(o)]) && locks == locksBefore && candidates == before
      else
        && candidates == Entered(before, o, r)
        && if requestId(o) in locksBefore then
             r == Settled(o, Replayed(locksBefore[requestId(o)])) && locks == locksBefore
           else r == Settled(o, Answered(found)) && RetainsFirst(found, requestId(o), locksBefore, locks)
    }

    /**
     Answers a dependency request.  What the checks turn away changes nothing; a candidate that was resolved
     before, and then any candidate of a request that was, is answered from what is retained, offline; only a
     new request is searched for.
     */
    method CandidateDependencies(o: Owner, c: RegistryCatalog) returns (r: Outcome)
      requires Valid() && Lawful() && o in family && ClausesKeepMeaning(o.task.pkg) && Evidenced(o.task)
      requires c.Valid() && c.pkg == o.task.pkg && c.reader == o.task.reader && Keeps(c.reader)
      modifies this, c
      ensures Valid() && c.Valid()
      ensures Refusal(o).Some? ==> r == Refusal(o).value && locks == old(locks) && candidates == old(candidates)
      ensures Refusal(o).None? ==>
                Answers(o, RegistryAnswer(ProblemOf(o), c), r, old(locks), old(candidates))
    {
      var refusal := CheckInputs(o);
      if refusal.Some? {
        return refusal.value;
      }
      AdmittedIsSound(o);
      r := LookUp(o, c);
    }

    /** The answer to a request that passed the checks. */
    method LookUp(o: Owner, c: RegistryCatalog) returns (r: Outcome)
      requires Valid() && Lawful() && o in family && ClausesKeepMeaning(o.task.pkg) && Genuine(o.task)
      requires SafeDeclarations(ProblemOf(o))
      requires c.Valid() && c.pkg == o.task.pkg && c.reader == o.task.reader && Keeps(c.reader)
      modifies this, c
      ensures Valid() && c.Valid()
      ensures Answers(o, RegistryAnswer(ProblemOf(o), c), r, old(locks), old(candidates))
    {
      if candidateId(o) in candidates {
        r := Revisit(o);
      } else if requestId(o) in locks {
        r := Reuse(o);
      } else {
        r := First(o, c);
      }
    }
  }

  /** A first answer is retained under its identity, unless the search was denied. */
  ghost predicate RetainsFirst(r: SolveResult, id: string, before: map<string, Frozen>, after: map<string, Frozen>) {
    if r.Denied? then after == before
    else id in after && after == before[id := FrozenFor(r, after[id].snapshot)]
  }

  /**
   The cache repeats the answer of the search it saved exactly when that answer is not the
   empty closure: a lock that selects no wheel is written, and then refused by every replay.
   */
  lemma CacheAgreesWithSearch(q: Query, offers: Offers, roster: set<string>, snapshot: map<string, Response>)
    requires Bounded(offers, roster) && Honest(offers) && !Malformed(q)
    ensures var r := Listed(Answer(q, offers, roster));
            && !r.Denied?
            && (Replayed(FrozenFor(r, snapshot)) == Answered(r) <==>
                  exists k <- q.roots :: MarkerVerdict(q.pkg, k.marker, "") == Applies)
  {
    SolveIsSound(q, offers, roster);
    var o := Answer(q, offers, roster);
    EmptyClosure(q);
    if Acceptable(q, map[]) {
      SolveIsComplete(q, offers, roster, map[]);
      EmptyStartsComplete(q, offers, roster);
    } else if o.Solved? {
      AlongAt(o.selection, Sorted(o.selection.Keys));
      assert o.selection != map[];
      assert |o.selection.Keys| != 0;
    }
  }

  lemma EmptyStartsComplete(q: Query, offers: Offers, roster: set<string>)
    requires Bounded(offers, roster) && !Malformed(q) && Acceptable(q, map[])
    ensures Answer(q, offers, roster) == Solved(map[])
    ensures InOrder(map[]) == []
  {
    assert Missing(q, map[]) == {};
    assert Sorted({}) == [];
    AlongAt(map[], []);
  }

  /** One build requirement, for another interpreter: it does not apply to the target. */
  function ForeignRequest(): Problem {
    Problem(Packaging(n => n, c => c, (c, v) => true, c => false,
                      (marker, extra) => Requirements.Verdict.Skipped, r => true),
            [Requirement("setuptools", {}, {}, "python_version < '3'")], [], map[], None, {"py3-none-any"}, "3.12.4",
            false, [], 1024, 1024)
  }

  /** On that request the first answer and every replay of its lock differ, whatever the registry offers. */
  lemma ForeignRequestIsRefusedOnReplay(make: Profiles, o: Owner, id: string, offers: Offers, roster: set<string>,
      snapshot: map<string, Response>)
    requires Bounded(offers, roster) && make(o, []).None?
    ensures var r := Listed(Answer(Canonical(ForeignRequest()), offers, roster));
            && r == Roster([])
            && Profiled(make, o, id, Answered(r)) == Unresolved
            && Profiled(make, o, id, Replayed(FrozenFor(r, snapshot))) == Refused(PolicyRejected)
  {
    var q := Canonical(ForeignRequest());
    assert q.constraints == {};
    EmptyClosure(q);
    EmptyStartsComplete(q, offers, roster);
  }
}
