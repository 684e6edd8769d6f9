/**
 The frozen recipe of a task: the wheels its runtime profile lists, the pins that must match them, the
 image that was built from both, and why checked pins say what their artifacts hold.
 */
module Recipes {
  import opened Text
  import opened Lines
  import opened Lists
  import opened Requirements
  import opened Wheels

  /** A wheel of a profile. */
  datatype Listing = Listing(name: string, version: string, filename: string, sha256: string)

  datatype Profile = Profile(project: string, dependencies: seq<Listing>)

  datatype BaselinePin = BaselinePin(pin: Pin, artifact: string)

  /** Everything an image is built from. */
  datatype Context = Context(base: string, profile: Profile, files: map<string, Bytes>)

  datatype Image = Image(digest: string, base: string, context: Context)

  /** What the construction of an image leaves behind. */
  datatype Evidence = Evidence(baseline: string, image: string, context: Context, cleanupVerified: bool)

  datatype Recipe = Recipe(
    baseline: string, base: string, profile: Profile, pins: seq<BaselinePin>, image: Image, evidence: seq<Evidence>)

  function ListedName(d: Listing): string {
    d.name
  }

  function ListedFile(d: Listing): string {
    d.filename
  }

  function CanonicalName(pkg: Packaging): Listing -> string {
    (d: Listing) => pkg.canonicalizeName(d.name)
  }

  function PinName(b: BaselinePin): string {
    b.pin.name
  }

  // ---------- the profile ----------

  /** No two dependencies share a name, however spelled, or a file name, and none is the project itself. */
  ghost predicate CanonicalProfile(pkg: Packaging, profile: Profile) {
    && Distinct(Mapped(ListedName, profile.dependencies))
    && Distinct(Mapped(ListedFile, profile.dependencies))
    && Distinct(Mapped(CanonicalName(pkg), profile.dependencies))
    && pkg.canonicalizeName(profile.project) !in Mapped(CanonicalName(pkg), profile.dependencies)
  }

  method AllDifferent(values: seq<string>) returns (ok: bool)
    ensures ok <==> Distinct(values)
  {
    DistinctSize(values);
    return |Elements(values)| == |values|;
  }

  method CheckProfile(pkg: Packaging, profile: Profile) returns (ok: bool)
    ensures ok <==> CanonicalProfile(pkg, profile)
  {
    var canonical := Mapped(CanonicalName(pkg), profile.dependencies);
    var names := AllDifferent(Mapped(ListedName, profile.dependencies));
    var files := AllDifferent(Mapped(ListedFile, profile.dependencies));
    var spellings := AllDifferent(canonical);
    return names && files && spellings && pkg.canonicalizeName(profile.project) !in canonical;
  }

  lemma SameListing<T>(f: Listing -> T, ds: seq<Listing>, d: Listing, e: Listing)
    requires Distinct(Mapped(f, ds)) && d in ds && e in ds && f(d) == f(e)
    ensures d == e
  {
    var i :| 0 <= i < |ds| && ds[i] == d;
    var j :| 0 <= j < |ds| && ds[j] == e;
    assert Mapped(f, ds)[i] == Mapped(f, ds)[j];
  }

  // ---------- the pins ----------

  function Named(ds: seq<Listing>, name: string): Option<Listing> {
    if ds == [] then None else if ds[0].name == name then Some(ds[0]) else Named(ds[1..], name)
  }

  lemma {:induction false} NamedMeaning(ds: seq<Listing>, name: string)
    ensures Named(ds, name).Some? <==> name in Mapped(ListedName, ds)
    ensures Named(ds, name).Some? ==> Named(ds, name).value in ds && Named(ds, name).value.name == name
  {
    MappedElements(ListedName, ds);
    if ds == [] {
    } else {
      NamedMeaning(ds[1..], name);
      MappedElements(ListedName, ds[1..]);
      assert ds == [ds[0]] + ds[1..];
      assert ListedName(ds[0]) == ds[0].name;
    }
  }

  /** The pin has the version and the hash of the wheel of that name, and the retained bytes have that hash. */
  predicate Agrees(store: Retained, ds: seq<Listing>, b: BaselinePin) {
    && Named(ds, b.pin.name).Some?
    && var d := Named(ds, b.pin.name).value;
       && b.pin.version == d.version && b.pin.sha256 == d.sha256
       && store.bytes(b.artifact).Some? && store.digest(store.bytes(b.artifact).value) == d.sha256
  }

  function SizeOf(store: Retained, b: BaselinePin): nat {
    if store.bytes(b.artifact).Some? then |store.bytes(b.artifact).value| else 0
  }

  function TotalSize(store: Retained, pins: seq<BaselinePin>): nat {
    if pins == [] then 0 else TotalSize(store, pins[..|pins| - 1]) + SizeOf(store, pins[|pins| - 1])
  }

  /** The pins are those of the profile, one for each, with the right bytes, and they fit. */
  ghost predicate Supplies(store: Retained, ds: seq<Listing>, pins: seq<BaselinePin>, cap: nat) {
    && |pins| == |ds| && Elements(Mapped(PinName, pins)) == Elements(Mapped(ListedName, ds))
    && (forall b <- pins :: Agrees(store, ds, b))
    && TotalSize(store, pins) <= cap
  }

  /** The files that pins supply, under the names that the profile gives them. */
  function FilesOf(store: Retained, ds: seq<Listing>, pins: seq<BaselinePin>): map<string, Bytes> {
    if pins == [] then map[]
    else
      var before, b := FilesOf(store, ds, pins[..|pins| - 1]), pins[|pins| - 1];
      if Agrees(store, ds, b) then before[Named(ds, b.pin.name).value.filename := store.bytes(b.artifact).value]
      else before
  }

  lemma SizesGrow(store: Retained, pins: seq<BaselinePin>, i: nat)
    requires i <= |pins|
    ensures TotalSize(store, pins[..i]) <= TotalSize(store, pins)
    decreases |pins|
  {
    if i < |pins| {
      SizesGrow(store, pins[..|pins| - 1], i);
      assert pins[..|pins| - 1][..i] == pins[..i];
    } else {
      assert pins[..i] == pins;
    }
  }

  /** `dependency_files`: the supply of an image, refused exactly if the pins are not those of the profile. */
  method DependencyFiles(store: Retained, ds: seq<Listing>, pins: seq<BaselinePin>, cap: nat)
    returns (files: Option<map<string, Bytes>>)
    ensures files.Some? <==> Supplies(store, ds, pins, cap)
    ensures files.Some? ==> files.value == FilesOf(store, ds, pins)
  {
    if |pins| != |ds| || Elements(Mapped(PinName, pins)) != Elements(Mapped(ListedName, ds)) {
      return None;
    }
    var found: map<string, Bytes> := map[];
    var total := 0;
    for i := 0 to |pins|
      invariant found == FilesOf(store, ds, pins[..i]) && total == TotalSize(store, pins[..i]) <= cap
      invariant forall b <- pins[..i] :: Agrees(store, ds, b)
    {
      var b := pins[i];
      PrefixNext(pins, i);
      assert pins[..i + 1][..i] == pins[..i];
      if !Agrees(store, ds, b) {
        assert b in pins;
        return None;
      }
      total := total + SizeOf(store, b);
      if total > cap {
        SizesGrow(store, pins, i + 1);
        return None;
      }
      found := found[Named(ds, b.pin.name).value.filename := store.bytes(b.artifact).value];
    }
    assert pins[..|pins|] == pins;
    return Some(found);
  }

  /** As many pins as names: no two pins share one. */
  lemma PinsAreApart(store: Retained, ds: seq<Listing>, pins: seq<BaselinePin>, cap: nat)
    requires Supplies(store, ds, pins, cap) && Distinct(Mapped(ListedName, ds))
    ensures Distinct(Mapped(PinName, pins))
  {
    DistinctSize(Mapped(ListedName, ds));
    DistinctSize(Mapped(PinName, pins));
  }

  /** The pin agrees with the profile, and its bytes are supplied under the file name of its wheel. */
  ghost predicate Holds(store: Retained, ds: seq<Listing>, files: map<string, Bytes>, b: BaselinePin) {
    && Agrees(store, ds, b)
    && var file := Named(ds, b.pin.name).value.filename;
       file in files && files[file] == store.bytes(b.artifact).value
  }

  /** Supplying another pin leaves this one supplied. */
  lemma StaysSupplied(store: Retained, ds: seq<Listing>, files: map<string, Bytes>, a: BaselinePin, b: BaselinePin)
    requires Distinct(Mapped(ListedFile, ds)) && Holds(store, ds, files, a) && Agrees(store, ds, b)
    requires a.pin.name != b.pin.name
    ensures Holds(store, ds, files[Named(ds, b.pin.name).value.filename := store.bytes(b.artifact).value], a)
  {
    NamedMeaning(ds, a.pin.name);
    NamedMeaning(ds, b.pin.name);
    var d, e := Named(ds, a.pin.name).value, Named(ds, b.pin.name).value;
    if d.filename == e.filename {
      assert ListedFile(d) == ListedFile(e);
      SameListing(ListedFile, ds, d, e);
    }
  }

  lemma {:induction false} SuppliedAs(store: Retained, ds: seq<Listing>, pins: seq<BaselinePin>, i: nat)
    requires Distinct(Mapped(ListedFile, ds)) && Distinct(Mapped(PinName, pins))
    requires (forall b <- pins :: Agrees(store, ds, b)) && i < |pins|
    ensures Holds(store, ds, FilesOf(store, ds, pins), pins[i])
  {
    var k := |pins| - 1;
    var before, b := pins[..k], pins[k];
    assert b in pins && Agrees(store, ds, b);
    if i < k {
      assert forall j | 0 <= j < k :: Mapped(PinName, before)[j] == Mapped(PinName, pins)[j];
      assert forall x <- before :: x in pins;
      SuppliedAs(store, ds, before, i);
      assert Mapped(PinName, pins)[i] != Mapped(PinName, pins)[k];
      StaysSupplied(store, ds, FilesOf(store, ds, before), pins[i], b);
    }
  }

  // ---------- the image ----------

  /** `pip` installs a supplied wheel for a listed name only if its hash is the listed one and it is of that name. */
  ghost predicate Installs(pkg: Packaging, store: Retained, context: Context) {
    forall d <- context.profile.dependencies ::
      && d.filename in context.files && store.digest(context.files[d.filename]) == d.sha256
      && store.distribution(context.files[d.filename]).Some?
      && store.distribution(context.files[d.filename]).value.name == pkg.canonicalizeName(d.name)
  }

  /** The distributions that are then installed. */
  function Installed(store: Retained, context: Context, ds: seq<Listing>): seq<Distribution> {
    if ds == [] then []
    else
      (if ds[0].filename in context.files && store.distribution(context.files[ds[0].filename]).Some?
       then [store.distribution(context.files[ds[0].filename]).value] else []) + Installed(store, context, ds[1..])
  }

  /** The names and versions that a profile expects. */
  function Expected(pkg: Packaging, ds: seq<Listing>): map<string, string> {
    if ds == [] then map[] else Expected(pkg, ds[1..])[pkg.canonicalizeName(ds[0].name) := ds[0].version]
  }

  function VersionsOf(installed: seq<Distribution>): map<string, string> {
    if installed == [] then map[]
    else VersionsOf(installed[..|installed| - 1])[installed[|installed| - 1].name := installed[|installed| - 1].version]
  }

  function DistributionName(x: Distribution): string {
    x.name
  }

  /** What is installed is exactly what the profile names, once. */
  ghost predicate Complete(pkg: Packaging, ds: seq<Listing>, installed: seq<Distribution>) {
    Distinct(Mapped(DistributionName, installed)) && VersionsOf(installed) == Expected(pkg, ds)
  }

  lemma InstalledApart(installed: seq<Distribution>)
    ensures Distinct(Mapped(DistributionName, installed)) <==>
              forall i, j | 0 <= i < j < |installed| :: installed[i].name != installed[j].name
  {
    forall i | 0 <= i < |installed|
      ensures Mapped(DistributionName, installed)[i] == installed[i].name
    {
      assert DistributionName(installed[i]) == installed[i].name;
    }
  }

  /** The versions found so far are those of different distributions. */
  ghost predicate Tracks(found: map<string, string>, installed: seq<Distribution>) {
    && found == VersionsOf(installed) && found.Keys == (set x <- installed :: x.name)
    && Distinct(Mapped(DistributionName, installed))
  }

  lemma TracksNext(found: map<string, string>, installed: seq<Distribution>, x: Distribution)
    requires Tracks(found, installed)
    ensures x.name !in found ==> Tracks(found[x.name := x.version], installed + [x])
    ensures x.name in found ==> !Distinct(Mapped(DistributionName, installed + [x]))
  {
    var next := installed + [x];
    assert next[..|installed|] == installed;
    InstalledApart(installed);
    InstalledApart(next);
    if x.name in found {
      var y :| y in installed && y.name == x.name;
      var j :| 0 <= j < |installed| && installed[j] == y;
      assert next[j].name == next[|installed|].name;
    }
  }

  lemma PrefixIsApart(installed: seq<Distribution>, i: nat)
    requires i <= |installed| && Distinct(Mapped(DistributionName, installed))
    ensures Distinct(Mapped(DistributionName, installed[..i]))
  {
    InstalledApart(installed);
    InstalledApart(installed[..i]);
  }

  /** The check that runs in the image. */
  method CheckInstalled(pkg: Packaging, ds: seq<Listing>, installed: seq<Distribution>) returns (ok: bool)
    ensures ok <==> Complete(pkg, ds, installed)
  {
    var found: map<string, string> := map[];
    for i := 0 to |installed|
      invariant Tracks(found, installed[..i])
    {
      PrefixNext(installed, i);
      TracksNext(found, installed[..i], installed[i]);
      if installed[i].name in found {
        if Complete(pkg, ds, installed) {
          PrefixIsApart(installed, i + 1);
        }
        return false;
      }
      found := found[installed[i].name := installed[i].version];
    }
    assert installed[..|installed|] == installed;
    return found == Expected(pkg, ds);
  }

  /** The image was built from this context and passed its check. */
  ghost predicate Constructed(pkg: Packaging, store: Retained, context: Context) {
    && Installs(pkg, store, context)
    && Complete(pkg, context.profile.dependencies, Installed(store, context, context.profile.dependencies))
  }

  /** Evidence is only left by a construction. */
  ghost predicate Trusted(pkg: Packaging, store: Retained, evidence: seq<Evidence>) {
    forall e <- evidence :: Constructed(pkg, store, e.context)
  }

  /** Builds an image and leaves evidence of it, if installation and check succeed. */
  method Construct(pkg: Packaging, store: Retained, context: Context, baseline: string, digest: string,
      installed: bool, cleaned: bool) returns (e: Option<Evidence>)
    requires installed ==> Installs(pkg, store, context)
    ensures e.Some? ==> Trusted(pkg, store, [e.value]) && e.value == Evidence(baseline, digest, context, cleaned)
    ensures e.Some? <==> installed && Constructed(pkg, store, context)
  {
    if !installed {
      return None;
    }
    var ds := context.profile.dependencies;
    var complete := CheckInstalled(pkg, ds, Installed(store, context, ds));
    return if complete then Some(Evidence(baseline, digest, context, cleaned)) else None;
  }

  // ---------- the recipe ----------

  /** The recipe's pins match its profile, and its image and evidence are those of a construction from both. */
  ghost predicate ValidRecipe(pkg: Packaging, store: Retained, cap: nat, r: Recipe) {
    var ds := r.profile.dependencies;
    var context := Context(r.base, r.profile, FilesOf(store, ds, r.pins));
    && CanonicalProfile(pkg, r.profile) && Supplies(store, ds, r.pins, cap)
    && r.image.base == r.base && r.image.context == context
    && r.evidence == [Evidence(r.baseline, r.image.digest, context, true)]
  }

  /** `validate_recipe_profile`, as far as dependencies go. */
  method ValidateRecipe(pkg: Packaging, store: Retained, cap: nat, r: Recipe) returns (ok: bool)
    ensures ok <==> ValidRecipe(pkg, store, cap, r)
  {
    ok := CheckProfile(pkg, r.profile);
    if !ok {
      return;
    }
    var files := DependencyFiles(store, r.profile.dependencies, r.pins, cap);
    if files.None? {
      return false;
    }
    var context := Context(r.base, r.profile, files.value);
    return
      r.image.base == r.base && r.image.context == context &&
      r.evidence == [Evidence(r.baseline, r.image.digest, context, true)];
  }

  // ---------- what checked pins say ----------

  /** What an artifact holds, as a pin. */
  function Described(store: Retained, artifact: string): Pin {
    match store.bytes(artifact)
    case None => Pin("", "", "")
    case Some(data) =>
      var d := store.distribution(data);
      if d.None? then Pin("", "", "") else Pin(d.value.name, d.value.version, store.digest(data))
  }

  lemma {:induction false} ExpectedVersion(pkg: Packaging, ds: seq<Listing>, d: Listing)
    requires Distinct(Mapped(CanonicalName(pkg), ds)) && d in ds
    ensures pkg.canonicalizeName(d.name) in Expected(pkg, ds)
    ensures Expected(pkg, ds)[pkg.canonicalizeName(d.name)] == d.version
  {
    var first, rest := ds[0], ds[1..];
    assert ds == [first] + rest;
    if d != first {
      assert Mapped(CanonicalName(pkg), ds)[1..] == Mapped(CanonicalName(pkg), rest);
      TailIsDistinct(Mapped(CanonicalName(pkg), ds));
      ExpectedVersion(pkg, rest, d);
      if CanonicalName(pkg)(first) == CanonicalName(pkg)(d) {
        SameListing(CanonicalName(pkg), ds, d, first);
      }
    }
  }

  lemma {:induction false} InstalledVersion(installed: seq<Distribution>, x: Distribution)
    requires Distinct(Mapped(DistributionName, installed)) && x in installed
    ensures x.name in VersionsOf(installed) && VersionsOf(installed)[x.name] == x.version
  {
    var k := |installed| - 1;
    var before, last := installed[..k], installed[k];
    LastRejoins(installed);
    InstalledApart(installed);
    InstalledApart(before);
    if x != last {
      InstalledVersion(before, x);
      var i :| 0 <= i < k && before[i] == x;
      assert installed[i] == x;
    }
  }

  lemma {:induction false} InstalledFrom(store: Retained, context: Context, ds: seq<Listing>, d: Listing)
    requires d in ds && d.filename in context.files && store.distribution(context.files[d.filename]).Some?
    ensures store.distribution(context.files[d.filename]).value in Installed(store, context, ds)
  {
    assert ds == [ds[0]] + ds[1..];
    if ds[0] != d {
      InstalledFrom(store, context, ds[1..], d);
    }
  }

  /** In a constructed image every listed file holds the distribution it is listed as. */
  lemma ListedIsHeld(pkg: Packaging, store: Retained, context: Context, d: Listing)
    requires Constructed(pkg, store, context) && CanonicalProfile(pkg, context.profile)
    requires d in context.profile.dependencies
    ensures d.filename in context.files
    ensures store.distribution(context.files[d.filename]) ==
            Some(Distribution(pkg.canonicalizeName(d.name), d.version))
  {
    var ds := context.profile.dependencies;
    InstalledFrom(store, context, ds, d);
    InstalledVersion(Installed(store, context, ds), store.distribution(context.files[d.filename]).value);
    ExpectedVersion(pkg, ds, d);
  }

  /** The pins of a checked recipe say what their artifacts hold. */
  lemma CheckedPinIsGenuine(pkg: Packaging, store: Retained, cap: nat, r: Recipe, i: nat)
    requires ValidRecipe(pkg, store, cap, r) && Trusted(pkg, store, r.evidence) && i < |r.pins|
    ensures CanonicalPin(pkg, r.pins[i].pin) == Described(store, r.pins[i].artifact)
  {
    var ds, b := r.profile.dependencies, r.pins[i];
    PinsAreApart(store, ds, r.pins, cap);
    SuppliedAs(store, ds, r.pins, i);
    NamedMeaning(ds, b.pin.name);
    assert r.evidence[0] in r.evidence;
    ListedIsHeld(pkg, store, r.image.context, Named(ds, b.pin.name).value);
  }

  /** No two pins of a checked recipe pin one name, however spelled. */
  lemma CheckedPinsAreApart(pkg: Packaging, store: Retained, cap: nat, r: Recipe, i: nat, j: nat)
    requires ValidRecipe(pkg, store, cap, r) && i < j < |r.pins|
    ensures pkg.canonicalizeName(r.pins[i].pin.name) != pkg.canonicalizeName(r.pins[j].pin.name)
  {
    var ds, a, b := r.profile.dependencies, r.pins[i], r.pins[j];
    PinsAreApart(store, ds, r.pins, cap);
    assert a in r.pins && b in r.pins;
    NamedMeaning(ds, a.pin.name);
    NamedMeaning(ds, b.pin.name);
    assert Mapped(PinName, r.pins)[i] != Mapped(PinName, r.pins)[j];
    var d, e := Named(ds, a.pin.name).value, Named(ds, b.pin.name).value;
    if CanonicalName(pkg)(d) == CanonicalName(pkg)(e) {
      SameListing(CanonicalName(pkg), ds, d, e);
    }
  }
}
