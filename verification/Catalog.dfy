/**
 The registry provider: which index pages are accepted, the order in which their wheels are offered,
 the lazy caches that serve them, and the facts about the provider that the solver's theorems ask for.
 */
module Catalog {
  import opened Text
  import opened Requirements
  import opened Closure
  import opened Search
  import opened Asking
  import opened Sorting
  import opened Lines
  import opened Wheels

  // ---------- index pages ----------

  /**
   One compatible wheel of an index page.  `release` and `build` stand for the version and
   the build tag by their rank in the total orders that the packaging library defines.
   */
  datatype Indexed = Indexed(filename: string, sha256: string, version: string, release: int, prerelease: bool,
                             tagRank: int, build: int, size: Option<nat>)

  predicate ByFile(a: Indexed, b: Indexed) {
    Less(a.filename, b.filename) || (a.filename == b.filename && Less(a.sha256, b.sha256))
  }

  predicate ByBuild(a: Indexed, b: Indexed) { a.build > b.build }

  predicate ByTag(a: Indexed, b: Indexed) { a.tagRank < b.tagRank }

  predicate ByRelease(a: Indexed, b: Indexed) { a.release > b.release }

  predicate FinalFirst(a: Indexed, b: Indexed) { !a.prerelease && b.prerelease }

  function SmallEnough(maxBytes: nat, files: seq<Indexed>): seq<Indexed> {
    if files == [] then []
    else if files[0].size.None? || files[0].size.value <= maxBytes then [files[0]] + SmallEnough(maxBytes, files[1..])
    else SmallEnough(maxBytes, files[1..])
  }

  /** `_index_files`: four successive stable sorts of the files that fit. */
  function IndexOrder(maxBytes: nat, files: seq<Indexed>): seq<Indexed> {
    StableSort(ByRelease, StableSort(ByTag, StableSort(ByBuild, StableSort(ByFile, SmallEnough(maxBytes, files)))))
  }

  /** The order of one `options` call: final releases first unless prereleases were asked for. */
  function OfferOrder(maxBytes: nat, files: seq<Indexed>, prereleases: bool): seq<Indexed> {
    if prereleases then IndexOrder(maxBytes, files) else StableSort(FinalFirst, IndexOrder(maxBytes, files))
  }

  /** The intended preference, as one comparison. */
  ghost predicate Preferred(prereleases: bool, a: Indexed, b: Indexed) {
    if !prereleases && a.prerelease != b.prerelease then b.prerelease
    else if a.release != b.release then a.release > b.release
    else if a.tagRank != b.tagRank then a.tagRank < b.tagRank
    else if a.build != b.build then a.build > b.build
    else ByFile(a, b)
  }

  lemma ByFileIsStrict()
    ensures StrictWeak(ByFile)
    ensures forall a, b :: ByFile(a, b) || ByFile(b, a) || (a.filename == b.filename && a.sha256 == b.sha256)
  {
    forall a: Indexed
      ensures !ByFile(a, a)
    {
      LessIrreflexive(a.filename);
      LessIrreflexive(a.sha256);
    }
    forall a: Indexed, b: Indexed, c: Indexed | ByFile(a, b) && ByFile(b, c)
      ensures ByFile(a, c)
    {
      if Less(a.filename, b.filename) && Less(b.filename, c.filename) {
        LessTransitive(a.filename, b.filename, c.filename);
      }
      if Less(a.sha256, b.sha256) && Less(b.sha256, c.sha256) {
        LessTransitive(a.sha256, b.sha256, c.sha256);
      }
    }
    forall a: Indexed, b: Indexed
      ensures ByFile(a, b) || ByFile(b, a) || (a.filename == b.filename && a.sha256 == b.sha256)
    {
      LessTotal(a.filename, b.filename);
      LessTotal(a.sha256, b.sha256);
    }
    forall a: Indexed, b: Indexed, c: Indexed | ByFile(a, c)
      ensures ByFile(a, b) || ByFile(b, c)
    {
      if !ByFile(a, b) && ByFile(b, a) {
        assert ByFile(b, c);
      }
    }
  }

  /** Names of the files of a page are its dictionary keys, so they are distinct. */
  ghost predicate DistinctNames(files: seq<Indexed>) {
    forall i, j | 0 <= i < j < |files| :: files[i].filename != files[j].filename
  }

  /** All files are ordered by nothing in particular. */
  predicate Unrelated(a: Indexed, b: Indexed) { a.filename != b.filename }

  lemma {:induction false} SmallEnoughKeeps(maxBytes: nat, files: seq<Indexed>)
    ensures forall f :: f in SmallEnough(maxBytes, files) <==> f in files && (f.size.None? || f.size.value <= maxBytes)
  {
    if files == [] {
    } else {
      SmallEnoughKeeps(maxBytes, files[1..]);
      assert files == [files[0]] + files[1..];
    }
  }

  lemma {:induction false} SmallEnoughDistinct(maxBytes: nat, files: seq<Indexed>)
    requires DistinctNames(files)
    ensures Ordered(Unrelated, SmallEnough(maxBytes, files))
  {
    if files == [] {
    } else {
      assert forall i | 0 <= i < |files[1..]| :: files[1..][i] == files[i + 1];
      SmallEnoughDistinct(maxBytes, files[1..]);
      SmallEnoughKeeps(maxBytes, files[1..]);
      forall f <- SmallEnough(maxBytes, files[1..])
        ensures f.filename != files[0].filename
      {
        assert f in files[1..];
      }
    }
  }

  lemma OrderElements(maxBytes: nat, files: seq<Indexed>, prereleases: bool)
    ensures multiset(OfferOrder(maxBytes, files, prereleases)) == multiset(SmallEnough(maxBytes, files))
  {
    var s := SmallEnough(maxBytes, files);
    SortElements(ByFile, s);
    var s1 := StableSort(ByFile, s);
    SortElements(ByBuild, s1);
    var s2 := StableSort(ByBuild, s1);
    SortElements(ByTag, s2);
    var s3 := StableSort(ByTag, s2);
    SortElements(ByRelease, s3);
    SortElements(FinalFirst, IndexOrder(maxBytes, files));
  }

  /** The keys of the successive sorts, the last sort first. */
  ghost function Lexicographic(prereleases: bool): (Indexed, Indexed) -> bool {
    var indexed := Then(ByRelease, Then(ByTag, Then(ByBuild, Then(ByFile, Unrelated))));
    if prereleases then indexed else Then(FinalFirst, indexed)
  }

  lemma LexicographicIsPreference(prereleases: bool)
    ensures forall a, b :: Lexicographic(prereleases)(a, b) ==> Preferred(prereleases, a, b)
  {
    forall a: Indexed, b: Indexed | Lexicographic(prereleases)(a, b)
      ensures Preferred(prereleases, a, b)
    {
      var t0 := Then(ByFile, Unrelated);
      var t1 := Then(ByBuild, t0);
      var t2 := Then(ByTag, t1);
      ThenMeaning(ByFile, Unrelated, a, b);
      ThenMeaning(ByBuild, t0, a, b);
      ThenMeaning(ByTag, t1, a, b);
      ThenMeaning(ByRelease, t2, a, b);
      ThenMeaning(FinalFirst, Then(ByRelease, t2), a, b);
      LessTotal(a.filename, b.filename);
      assert t0(a, b) ==> ByFile(a, b);
    }
  }

  lemma KeysAreStrict()
    ensures StrictWeak(ByBuild) && StrictWeak(ByTag) && StrictWeak(ByRelease) && StrictWeak(FinalFirst)
  {}

  lemma OfferOrderIsLexicographic(maxBytes: nat, files: seq<Indexed>, prereleases: bool)
    requires DistinctNames(files)
    ensures Ordered(Lexicographic(prereleases), OfferOrder(maxBytes, files, prereleases))
  {
    var s := SmallEnough(maxBytes, files);
    SmallEnoughDistinct(maxBytes, files);
    ByFileIsStrict();
    KeysAreStrict();
    var t0, s1 := Then(ByFile, Unrelated), StableSort(ByFile, s);
    StableSortIsLexicographic(ByFile, Unrelated, s);
    var t1, s2 := Then(ByBuild, t0), StableSort(ByBuild, s1);
    StableSortIsLexicographic(ByBuild, t0, s1);
    var t2, s3 := Then(ByTag, t1), StableSort(ByTag, s2);
    StableSortIsLexicographic(ByTag, t1, s2);
    StableSortIsLexicographic(ByRelease, t2, s3);
    StableSortIsLexicographic(FinalFirst, Then(ByRelease, t2), StableSort(ByRelease, s3));
  }

  /** The five sorts refine one lexicographic preference: any page is offered in that order. */
  lemma OfferOrderIsPreference(maxBytes: nat, files: seq<Indexed>, prereleases: bool)
    requires DistinctNames(files)
    ensures Ordered((a, b) => Preferred(prereleases, a, b), OfferOrder(maxBytes, files, prereleases))
  {
    OfferOrderIsLexicographic(maxBytes, files, prereleases);
    LexicographicIsPreference(prereleases);
  }

  /** The offers do not depend on the order in which the page lists its files. */
  lemma OfferOrderIgnoresPageOrder(maxBytes: nat, page: seq<Indexed>, shuffled: seq<Indexed>, prereleases: bool)
    requires DistinctNames(page) && DistinctNames(shuffled)
    requires forall f :: f in page <==> f in shuffled
    ensures OfferOrder(maxBytes, page, prereleases) == OfferOrder(maxBytes, shuffled, prereleases)
  {
    var r := (a, b) => Preferred(prereleases, a, b);
    PreferredIsStrict(prereleases);
    OfferOrderIsPreference(maxBytes, page, prereleases);
    OfferOrderIsPreference(maxBytes, shuffled, prereleases);
    OrderElements(maxBytes, page, prereleases);
    OrderElements(maxBytes, shuffled, prereleases);
    SmallEnoughKeeps(maxBytes, page);
    SmallEnoughKeeps(maxBytes, shuffled);
    SmallEnoughDistinct(maxBytes, page);
    SmallEnoughDistinct(maxBytes, shuffled);
    DistinctMultiset(SmallEnough(maxBytes, page), SmallEnough(maxBytes, shuffled));
    OrderIsUnique(r, OfferOrder(maxBytes, page, prereleases), OfferOrder(maxBytes, shuffled, prereleases));
  }

  lemma PreferredIsStrict(prereleases: bool)
    ensures forall a, b :: Preferred(prereleases, a, b) ==> !Preferred(prereleases, b, a)
  {
    ByFileIsStrict();
    forall a: Indexed, b: Indexed | ByFile(a, b)
      ensures !ByFile(b, a)
    {
      assert ByFile(b, a) ==> ByFile(a, a);
    }
  }

  lemma {:induction false} DistinctCount(s: seq<Indexed>, f: Indexed)
    requires Ordered(Unrelated, s)
    ensures multiset(s)[f] == if f in s then 1 else 0
  {
    if s == [] {
    } else {
      assert s == [s[0]] + s[1..];
      OrderedTail(Unrelated, s);
      DistinctCount(s[1..], f);
      if f in s[1..] {
        var k :| 0 <= k < |s[1..]| && s[1..][k] == f;
        assert s[k + 1] == f && Unrelated(s[0], s[k + 1]);
      }
    }
  }

  lemma DistinctMultiset(s: seq<Indexed>, t: seq<Indexed>)
    requires Ordered(Unrelated, s) && Ordered(Unrelated, t)
    requires forall f :: f in s <==> f in t
    ensures multiset(s) == multiset(t)
  {
    forall f: Indexed
      ensures multiset(s)[f] == multiset(t)[f]
    {
      DistinctCount(s, f);
      DistinctCount(t, f);
    }
  }

  // ---------- responses of the registry ----------

  /** One file record of a page, which equal text makes equal. */
  datatype Declared = Declared(filename: string, record: string)

  /** What reading a wheel's record says: to be passed over, unusable on the target, invalid, or a file to offer. */
  datatype Entry =
    | Ignored
    | Incompatible
    | Invalid
    | Compatible(sha256: string, version: string, release: int, prerelease: bool, tagRank: int, build: int,
                 size: Option<nat>)

  /** The registry's answer about a project, if it can be fetched. */
  datatype Response = Absent | Unreadable | Listing(items: seq<Declared>) | Unreachable(error: Error)

  /** What fetching a file gives: its bytes and where they are retained, already or by now. */
  datatype Fetch = Fetched(artifact: string, data: Bytes) | Lost(error: Error)

  /** What acquiring and inspecting a file gives. */
  datatype Inspection = Usable(wheel: Wheel) | Unusable | Raises(error: Error)

  /** How pages and files are read; `usable` tells whether a wheel fits the target and declares nothing unsafe. */
  datatype Reader = Reader(
    project: string -> string, entry: Declared -> Entry, fetch: Indexed -> Fetch, usable: Contents -> bool,
    store: Retained, maxBytes: nat)

  /** Fetched bytes are retained under their reference. */
  ghost predicate Keeps(reader: Reader) {
    forall f :: reader.fetch(f).Fetched? ==> reader.store.bytes(reader.fetch(f).artifact) == Some(reader.fetch(f).data)
  }

  /** The bytes are those that a listed file announces. */
  predicate Announced(store: Retained, f: Indexed, data: Bytes) {
    store.digest(data) == f.sha256 && (f.size.Some? ==> |data| == f.size.value)
  }

  /** A well-formed wheel is usable if its metadata confirm its file name and version and it fits the target. */
  function Opened(reader: Reader, f: Indexed, artifact: string, data: Bytes): Inspection {
    match reader.store.contents(f.filename, data)
    case None => Unusable
    case Some(c) =>
      var name := reader.project(f.filename);
      if c.distribution.name != name || reader.store.release(c.distribution.version) != f.version then Unusable
      else if !reader.usable(c) then Unusable
      else
        Usable(Wheel(name, f.version, f.filename, f.sha256, artifact, c.tags, c.requiresPython, c.requirements,
                     c.extras, |data|, c.expandedSize))
  }

  /** `_acquire` without its cache: bytes that differ from the index raise, and an invalid wheel is passed over. */
  function Inspect(reader: Reader, f: Indexed): Inspection {
    match reader.fetch(f)
    case Lost(e) => Raises(e)
    case Fetched(artifact, data) =>
      if !Announced(reader.store, f, data) then Raises(PolicyRejected) else Opened(reader, f, artifact, data)
  }

  function Inspector(reader: Reader): Indexed -> Inspection {
    f => Inspect(reader, f)
  }

  predicate IsWheel(filename: string) {
    |filename| >= 4 && filename[|filename| - 4..] == ".whl"
  }

  function FileOf(filename: string, e: Entry): Indexed
    requires e.Compatible?
  {
    Indexed(filename, e.sha256, e.version, e.release, e.prerelease, e.tagRank, e.build, e.size)
  }

  /** Two different records of one wheel. */
  ghost predicate Contradictory(items: seq<Declared>) {
    exists a <- items, b <- items :: IsWheel(a.filename) && a.filename == b.filename && a != b
  }

  /** A record that must not be on the page of a project. */
  predicate Offends(reader: Reader, name: string, item: Declared) {
    && IsWheel(item.filename) && !reader.entry(item).Ignored?
    && (reader.project(item.filename) != name || reader.entry(item).Invalid?)
  }

  /** The page is not trusted. */
  ghost predicate Rejects(reader: Reader, name: string, items: seq<Declared>) {
    Contradictory(items) || exists item <- items :: Offends(reader, name, item)
  }

  predicate Offered(reader: Reader, item: Declared) {
    IsWheel(item.filename) && reader.entry(item).Compatible?
  }

  /** The files that a page offers, in the order of their first listing. */
  function Files(reader: Reader, items: seq<Declared>): seq<Indexed> {
    if items == [] then []
    else
      var front, last := items[..|items| - 1], items[|items| - 1];
      if last in front || !Offered(reader, last) then Files(reader, front)
      else Files(reader, front) + [FileOf(last.filename, reader.entry(last))]
  }

  lemma {:induction false} FilesMeaning(reader: Reader, items: seq<Declared>)
    ensures forall f :: f in Files(reader, items) <==>
              exists item <- items :: Offered(reader, item) && f == FileOf(item.filename, reader.entry(item))
  {
    if items == [] {
      assert Files(reader, items) == [];
    } else {
      var front, last := items[..|items| - 1], items[|items| - 1];
      assert items == front + [last];
      FilesMeaning(reader, front);
    }
  }

  lemma {:induction false} FilesDistinct(reader: Reader, items: seq<Declared>)
    requires !Contradictory(items)
    ensures DistinctNames(Files(reader, items))
  {
    if items == [] {
      assert Files(reader, items) == [];
    } else {
      var front, last := items[..|items| - 1], items[|items| - 1];
      assert items == front + [last];
      FilesDistinct(reader, front);
      FilesMeaning(reader, front);
      var kept := Files(reader, front);
      if last !in front && Offered(reader, last) {
        forall i | 0 <= i < |kept|
          ensures kept[i].filename != last.filename
        {
          assert kept[i] in kept;
          var item :| item in front && Offered(reader, item) && kept[i] == FileOf(item.filename, reader.entry(item));
          assert item in items && last in items;
        }
      }
    }
  }

  /** The ordered files of an accepted page; a project without a page has none. */
  ghost function PageOf(reader: Reader, name: string, response: Response): Option<seq<Indexed>> {
    match response
    case Absent => Some([])
    case Unreadable => None
    case Unreachable(_) => None
    case Listing(items) =>
      if Rejects(reader, name, items) then None else Some(IndexOrder(reader.maxBytes, Files(reader, items)))
  }

  function FailureOf(response: Response): Error {
    if response.Unreachable? then response.error else PolicyRejected
  }

  /** On an accepted page every file belongs to the project, and file names are distinct. */
  lemma PageFiles(reader: Reader, name: string, response: Response)
    requires PageOf(reader, name, response).Some?
    ensures forall f <- PageOf(reader, name, response).value :: reader.project(f.filename) == name
    ensures Ordered(Unrelated, PageOf(reader, name, response).value)
  {
    if response.Listing? {
      var files := Files(reader, response.items);
      FilesMeaning(reader, response.items);
      FilesDistinct(reader, response.items);
      IndexKeeps(reader.maxBytes, files);
    }
  }

  /** Ordering a page for offers keeps its small enough files. */
  lemma IndexKeeps(maxBytes: nat, files: seq<Indexed>)
    ensures forall f :: f in IndexOrder(maxBytes, files) <==> f in files && (f.size.None? || f.size.value <= maxBytes)
    ensures DistinctNames(files) ==> Ordered(Unrelated, IndexOrder(maxBytes, files))
  {
    var index, kept := IndexOrder(maxBytes, files), SmallEnough(maxBytes, files);
    OrderElements(maxBytes, files, true);
    SmallEnoughKeeps(maxBytes, files);
    assert forall f :: f in index <==> f in multiset(index);
    assert forall f :: f in kept <==> f in multiset(kept);
    if DistinctNames(files) {
      OfferOrderIsPreference(maxBytes, files, true);
      PreferredIsStrict(true);
      SmallEnoughDistinct(maxBytes, files);
      ShuffledApart(kept, index);
    }
  }

  /** Distinctness of names does not depend on the order. */
  lemma ShuffledApart(s: seq<Indexed>, t: seq<Indexed>)
    requires Ordered(Unrelated, s) && multiset(s) == multiset(t)
    ensures Ordered(Unrelated, t)
  {
    forall i, j | 0 <= i < j < |t|
      ensures t[i].filename != t[j].filename
    {
      TwiceInMultiset(t, i, j);
      DistinctCount(s, t[i]);
      if t[i] != t[j] {
        assert t[i] in multiset(s) && t[j] in multiset(s);
        var k :| 0 <= k < |s| && s[k] == t[i];
        var l :| 0 <= l < |s| && s[l] == t[j];
        assert Unrelated(s[if k < l then k else l], s[if k < l then l else k]);
      }
    }
  }

  lemma TwiceInMultiset<T>(t: seq<T>, i: nat, j: nat)
    requires i < j < |t|
    ensures t[i] == t[j] ==> multiset(t)[t[i]] >= 2
  {
    assert t == t[..j] + [t[j]] + t[j + 1..];
    assert t[..j][i] in multiset(t[..j]);
  }

  // ---------- the provider ----------

  /**
   All that a provider can be answered with: the responses retained before, and what the registry
   answers to the first question about any other project.  Other names are absent.
   */
  datatype Registry = Registry(reader: Reader, retained: map<string, Response>, live: map<string, Response>)

  function ResponseTo(reg: Registry, name: string): Response {
    if name in reg.retained then reg.retained[name] else if name in reg.live then reg.live[name] else Absent
  }

  ghost function Page(reg: Registry, name: string): Option<seq<Indexed>> {
    PageOf(reg.reader, name, ResponseTo(reg, name))
  }

  function Known(reg: Registry): set<string> {
    reg.retained.Keys + reg.live.Keys
  }

  predicate Passes(f: Indexed, hashes: Option<set<string>>, passes: string -> bool) {
    (hashes.Some? ==> f.sha256 in hashes.value) && passes(f.version)
  }

  /** The wheels of a list of files whose hash and version pass, acquired in turn up to the first that raises. */
  function Acquired(inspect: Indexed -> Inspection, files: seq<Indexed>, hashes: Option<set<string>>,
      passes: string -> bool): Stream
  {
    if files == [] then Stream([], None)
    else if !Passes(files[0], hashes, passes) then Acquired(inspect, files[1..], hashes, passes)
    else
      match inspect(files[0])
      case Raises(e) => Stream([], Some(e))
      case Unusable => Acquired(inspect, files[1..], hashes, passes)
      case Usable(w) => Before(w, Acquired(inspect, files[1..], hashes, passes))
  }

  function Before(w: Wheel, s: Stream): Stream {
    Stream([w] + s.wheels, s.failure)
  }

  predicate AnyPrerelease(pkg: Packaging, requirements: seq<Requirement>) {
    exists r <- requirements :: Prereleases(pkg, r.specifier)
  }

  function Passing(pkg: Packaging, requirements: seq<Requirement>): string -> bool {
    v => MatchesAll(pkg, v, requirements)
  }

  function PassingKeys(pkg: Packaging, keys: set<Key>): string -> bool {
    v => forall k <- keys :: Matches(pkg, k.specifier, v)
  }

  /** The order of one iteration: final releases first unless prereleases were asked for. */
  function Sequence(files: seq<Indexed>, prereleases: bool): seq<Indexed> {
    if prereleases then files else StableSort(FinalFirst, files)
  }

  ghost function PageStream(reg: Registry, name: string, hashes: Option<set<string>>, pre: bool,
      passes: string -> bool): Stream
  {
    match Page(reg, name)
    case None => Stream([], Some(FailureOf(ResponseTo(reg, name))))
    case Some(files) => Acquired(Inspector(reg.reader), Sequence(files, pre), hashes, passes)
  }

  /** `RegistryCatalog.options` for a list of requirements. */
  ghost function RegistryOptions(pkg: Packaging, reg: Registry): Options {
    (name: string, requirements: seq<Requirement>, hashes: Option<set<string>>, prefer: bool) =>
      PageStream(reg, name, hashes, prefer || AnyPrerelease(pkg, requirements), Passing(pkg, requirements))
  }

  ghost predicate AnyPrereleaseKey(pkg: Packaging, keys: set<Key>) {
    exists k <- keys :: Prereleases(pkg, k.specifier)
  }

  /** The same provider for a set of canonical keys. */
  ghost function RegistryOffers(pkg: Packaging, reg: Registry): Offers {
    (name: string, keys: set<Key>, hashes: Option<set<string>>, prefer: bool) =>
      PageStream(reg, name, hashes, prefer || AnyPrereleaseKey(pkg, keys), PassingKeys(pkg, keys))
  }

  lemma OptionsAre(pkg: Packaging, reg: Registry, name: string, rs: seq<Requirement>, hashes: Option<set<string>>,
      prefer: bool)
    ensures RegistryOptions(pkg, reg)(name, rs, hashes, prefer) ==
            PageStream(reg, name, hashes, prefer || AnyPrerelease(pkg, rs), Passing(pkg, rs))
  {}

  lemma OffersAre(
    pkg: Packaging, reg: Registry, name: string, keys: set<Key>, hashes: Option<set<string>>, prefer: bool)
    ensures RegistryOffers(pkg, reg)(name, keys, hashes, prefer) ==
            PageStream(reg, name, hashes, prefer || AnyPrereleaseKey(pkg, keys), PassingKeys(pkg, keys))
  {}

  lemma {:induction false} AcquiredCongruent(inspect: Indexed -> Inspection, files: seq<Indexed>,
      hashes: Option<set<string>>, p: string -> bool, q: string -> bool)
    requires forall v :: p(v) == q(v)
    ensures Acquired(inspect, files, hashes, p) == Acquired(inspect, files, hashes, q)
  {
    if files == [] {
      assert Acquired(inspect, files, hashes, p) == Stream([], None);
    } else {
      AcquiredCongruent(inspect, files[1..], hashes, p, q);
    }
  }

  /** What is yielded was inspected from a passing file, and only such a file makes the iteration raise. */
  lemma {:induction false} AcquiredFrom(inspect: Indexed -> Inspection, files: seq<Indexed>,
      hashes: Option<set<string>>, passes: string -> bool)
    ensures var s := Acquired(inspect, files, hashes, passes);
            && (forall w <- s.wheels :: exists f <- files :: inspect(f) == Usable(w))
            && (s.failure.Some? ==> exists f <- files :: inspect(f) == Raises(s.failure.value))
  {
    if files == [] {
      assert Acquired(inspect, files, hashes, passes) == Stream([], None);
    } else {
      AcquiredFrom(inspect, files[1..], hashes, passes);
      assert files[0] in files && forall f <- files[1..] :: f in files;
    }
  }

  /** If no file raises, every usable passing file is yielded. */
  lemma {:induction false} AcquiredHolds(inspect: Indexed -> Inspection, files: seq<Indexed>,
      hashes: Option<set<string>>, passes: string -> bool, f: Indexed)
    requires forall g <- files :: !inspect(g).Raises?
    requires f in files && inspect(f).Usable? && Passes(f, hashes, passes)
    ensures inspect(f).wheel in Acquired(inspect, files, hashes, passes).wheels
  {
    assert files == [files[0]] + files[1..];
    if files[0] != f {
      AcquiredHolds(inspect, files[1..], hashes, passes, f);
    }
  }

  lemma KeysPass(pkg: Packaging, rs: seq<Requirement>)
    requires ClausesKeepMeaning(pkg)
    ensures AnyPrerelease(pkg, rs) == AnyPrereleaseKey(pkg, KeysOf(pkg, rs))
    ensures forall v :: Passing(pkg, rs)(v) == PassingKeys(pkg, KeysOf(pkg, rs))(v)
  {
    forall r <- rs
      ensures KeyOf(pkg, r) in KeysOf(pkg, rs)
      ensures Prereleases(pkg, KeyOf(pkg, r).specifier) == Prereleases(pkg, r.specifier)
      ensures forall v :: Matches(pkg, KeyOf(pkg, r).specifier, v) == Matches(pkg, r.specifier, v)
    {
      KeyMeaning(pkg, r, "");
      forall v
        ensures Matches(pkg, KeyOf(pkg, r).specifier, v) == Matches(pkg, r.specifier, v)
      {
        KeyMeaning(pkg, r, v);
      }
    }
  }

  /** The provider reads its requirements only through their keys, so the solver may too. */
  lemma RegistryReflects(pkg: Packaging, reg: Registry)
    requires ClausesKeepMeaning(pkg)
    ensures Reflects(pkg, RegistryOptions(pkg, reg), RegistryOffers(pkg, reg))
  {
    forall name, rs: seq<Requirement>, hashes, prefer
      ensures RegistryOptions(pkg, reg)(name, rs, hashes, prefer) ==
              RegistryOffers(pkg, reg)(name, KeysOf(pkg, rs), hashes, prefer)
    {
      KeysPass(pkg, rs);
      OptionsAre(pkg, reg, name, rs, hashes, prefer);
      OffersAre(pkg, reg, name, KeysOf(pkg, rs), hashes, prefer);
      if Page(reg, name).Some? {
        var files := Sequence(Page(reg, name).value, prefer || AnyPrerelease(pkg, rs));
        AcquiredCongruent(Inspector(reg.reader), files, hashes, Passing(pkg, rs), PassingKeys(pkg, KeysOf(pkg, rs)));
      }
    }
  }

  lemma RegistryIsBounded(pkg: Packaging, reg: Registry)
    ensures Bounded(RegistryOffers(pkg, reg), Known(reg))
  {
    forall name, keys: set<Key>, hashes, prefer | name !in Known(reg)
      ensures RegistryOffers(pkg, reg)(name, keys, hashes, prefer).wheels == []
    {
      OffersAre(pkg, reg, name, keys, hashes, prefer);
      assert Page(reg, name) == Some([]);
      assert Sequence([], prefer || AnyPrereleaseKey(pkg, keys)) == [];
    }
  }

  /** A usable wheel is what the index entry announced. */
  ghost predicate Confirms(name: string, f: Indexed, i: Inspection) {
    i.Usable? ==>
      && i.wheel.name == name && i.wheel.version == f.version
      && i.wheel.filename == f.filename && i.wheel.sha256 == f.sha256
  }

  /** Whatever is fetched, only what confirms its entry is usable. */
  lemma PageConfirms(reader: Reader, name: string, response: Response)
    requires PageOf(reader, name, response).Some?
    ensures forall f <- PageOf(reader, name, response).value :: Confirms(name, f, Inspector(reader)(f))
  {
    PageFiles(reader, name, response);
  }

  /** No listed file raises when it is acquired. */
  ghost predicate Intact(reg: Registry) {
    forall name, f :: Page(reg, name).Some? && f in Page(reg, name).value ==> !Inspector(reg.reader)(f).Raises?
  }

  lemma SequenceElements(files: seq<Indexed>, pre: bool)
    ensures forall f :: f in Sequence(files, pre) <==> f in files
  {
    SortElements(FinalFirst, files);
    assert forall f :: f in files <==> f in multiset(files);
    assert forall f :: f in StableSort(FinalFirst, files) <==> f in multiset(StableSort(FinalFirst, files));
  }

  /** Each name is answered with wheels of this name, or refused as a whole. */
  lemma AnswersOrRefuses(pkg: Packaging, reg: Registry, name: string)
    requires Intact(reg)
    ensures Page(reg, name).Some? ==> Answers(RegistryOffers(pkg, reg), name)
    ensures Page(reg, name).None? ==> Refuses(RegistryOffers(pkg, reg), name)
  {
    var offers := RegistryOffers(pkg, reg);
    if Page(reg, name).None? {
      forall keys: set<Key>, hashes, prefer
        ensures offers(name, keys, hashes, prefer) == Stream([], Some(FailureOf(ResponseTo(reg, name))))
      {
        OffersAre(pkg, reg, name, keys, hashes, prefer);
      }
    } else {
      PageConfirms(reg.reader, name, ResponseTo(reg, name));
      forall keys: set<Key>, hashes, prefer
        ensures Clean(offers(name, keys, hashes, prefer), name)
      {
        OffersAre(pkg, reg, name, keys, hashes, prefer);
        var files := Sequence(Page(reg, name).value, prefer || AnyPrereleaseKey(pkg, keys));
        SequenceElements(Page(reg, name).value, prefer || AnyPrereleaseKey(pkg, keys));
        AcquiredFrom(Inspector(reg.reader), files, hashes, PassingKeys(pkg, keys));
      }
    }
  }

  /** A wheel is on its project's page, and allowed by the hashes in force. */
  ghost predicate OnPage(q: Query, reg: Registry, name: string, w: Wheel) {
    && Page(reg, name).Some? && TermsFor(q, name).Some?
    && exists f <- Page(reg, name).value ::
         && Inspector(reg.reader)(f) == Usable(w)
         && (TermsFor(q, name).value.hashes.Some? ==> f.sha256 in TermsFor(q, name).value.hashes.value)
  }

  lemma OnPageIsSupplied(q: Query, reg: Registry, sel: Selection)
    requires Intact(reg) && forall n <- sel :: OnPage(q, reg, n, sel[n])
    ensures CanSupply(q, RegistryOffers(q.pkg, reg), sel)
  {
    forall n, keys: set<Key>, prefer | n in sel && TermsFor(q, n).Some? && Satisfies(q, sel[n].version, keys)
      ensures sel[n] in RegistryOffers(q.pkg, reg)(n, keys, TermsFor(q, n).value.hashes, prefer).wheels
    {
      assert OnPage(q, reg, n, sel[n]);
      PageConfirms(reg.reader, n, ResponseTo(reg, n));
      OffersAre(q.pkg, reg, n, keys, TermsFor(q, n).value.hashes, prefer);
      var hashes := TermsFor(q, n).value.hashes;
      var f :| && f in Page(reg, n).value && Inspector(reg.reader)(f) == Usable(sel[n])
               && (hashes.Some? ==> f.sha256 in hashes.value);
      var pre := prefer || AnyPrereleaseKey(q.pkg, keys);
      SequenceElements(Page(reg, n).value, pre);
      AcquiredHolds(Inspector(reg.reader), Sequence(Page(reg, n).value, pre), hashes, PassingKeys(q.pkg, keys), f);
    }
  }

  /** Every project has a page that is accepted, or none. */
  ghost predicate AllAnswered(reg: Registry) {
    forall name :: Page(reg, name).Some?
  }

  lemma RegistryIsHonest(pkg: Packaging, reg: Registry)
    requires Intact(reg) && AllAnswered(reg)
    ensures Honest(RegistryOffers(pkg, reg))
  {
    forall n, keys: set<Key>, hashes, pre
      ensures Clean(RegistryOffers(pkg, reg)(n, keys, hashes, pre), n)
    {
      AnswersOrRefuses(pkg, reg, n);
    }
  }

  /**
   The search over the registry is complete: if any acceptable closure can be built from its
   pages, one is returned, and it is the preferred one.
   */
  lemma RegistrySearchIsComplete(q: Query, reg: Registry, sel: Selection)
    requires Intact(reg) && AllAnswered(reg) && !Malformed(q)
    requires Acceptable(q, sel) && forall n <- sel :: OnPage(q, reg, n, sel[n])
    ensures Bounded(RegistryOffers(q.pkg, reg), Known(reg))
    ensures var offers := RegistryOffers(q.pkg, reg);
            var r := Answer(q, offers, Known(reg));
            r.Solved? && Acceptable(q, r.selection) && Prefers(q, offers, Known(reg), map[], r.selection, sel)
  {
    RegistryIsBounded(q.pkg, reg);
    RegistryIsHonest(q.pkg, reg);
    OnPageIsSupplied(q, reg, sel);
    SolveIsSound(q, RegistryOffers(q.pkg, reg), Known(reg));
    SolveIsComplete(q, RegistryOffers(q.pkg, reg), Known(reg), sel);
  }

  /** A search over the registry is refused exactly if it asks for a project whose page is not accepted. */
  lemma RegistryFailsExactly(q: Query, reg: Registry)
    requires Intact(reg) && !Malformed(q)
    ensures Bounded(RegistryOffers(q.pkg, reg), Known(reg))
    ensures var offers := RegistryOffers(q.pkg, reg);
            Answer(q, offers, Known(reg)).Failed? <==>
              exists n <- Asked(q, offers, Known(reg), map[]) :: Page(reg, n).None?
  {
    RegistryIsBounded(q.pkg, reg);
    var offers := RegistryOffers(q.pkg, reg);
    forall n
      ensures Answers(offers, n) || Refuses(offers, n)
      ensures Page(reg, n).None? <==> Refuses(offers, n)
    {
      AnswersOrRefuses(q.pkg, reg, n);
      if Page(reg, n).Some? {
        assert Clean(offers(n, {}, None, false), n);
      }
    }
    FailsExactly(q, offers, Known(reg));
  }

  /** The same pages with their records listed in any order. */
  ghost predicate SameResponses(a: Response, b: Response) {
    a == b || (a.Listing? && b.Listing? && forall item :: item in a.items <==> item in b.items)
  }

  lemma PageOrderIgnored(reader: Reader, name: string, a: Response, b: Response)
    requires SameResponses(a, b)
    ensures PageOf(reader, name, a).Some? <==> PageOf(reader, name, b).Some?
    ensures PageOf(reader, name, a).Some? ==>
              forall pre :: Sequence(PageOf(reader, name, a).value, pre) == Sequence(PageOf(reader, name, b).value, pre)
  {
    if a != b && !Rejects(reader, name, a.items) {
      FilesMeaning(reader, a.items);
      FilesMeaning(reader, b.items);
      FilesDistinct(reader, a.items);
      FilesDistinct(reader, b.items);
      OfferOrderIgnoresPageOrder(reader.maxBytes, Files(reader, a.items), Files(reader, b.items), true);
    }
  }

  /** Listing the records of the pages in another order does not change the answer. */
  lemma PageOrderIsIrrelevant(q: Query, a: Registry, b: Registry)
    requires a.reader == b.reader && Known(a) == Known(b)
    requires forall n :: SameResponses(ResponseTo(a, n), ResponseTo(b, n))
    ensures Bounded(RegistryOffers(q.pkg, a), Known(a)) && Bounded(RegistryOffers(q.pkg, b), Known(a))
    ensures Answer(q, RegistryOffers(q.pkg, a), Known(a)) == Answer(q, RegistryOffers(q.pkg, b), Known(a))
  {
    RegistryIsBounded(q.pkg, a);
    RegistryIsBounded(q.pkg, b);
    forall n
      ensures Agree(RegistryOffers(q.pkg, a), RegistryOffers(q.pkg, b), n)
    {
      PageOrderIgnored(a.reader, n, ResponseTo(a, n), ResponseTo(b, n));
      forall keys: set<Key>, hashes, pre
        ensures RegistryOffers(q.pkg, a)(n, keys, hashes, pre) == RegistryOffers(q.pkg, b)(n, keys, hashes, pre)
      {
        OffersAre(q.pkg, a, n, keys, hashes, pre);
        OffersAre(q.pkg, b, n, keys, hashes, pre);
      }
    }
    AskedDetermines(q, RegistryOffers(q.pkg, a), RegistryOffers(q.pkg, b), Known(a), map[]);
  }

  // ---------- reading one page ----------

  /** The tables of one reading: the record seen for each wheel, its file if it is offered, and the files so far. */
  datatype Index = Index(declarations: map<string, Declared>, files: map<string, Indexed>, ordered: seq<Indexed>)

  ghost predicate Reads(reader: Reader, name: string, done: seq<Declared>, t: Index) {
    && (forall item <- done :: !Offends(reader, name, item))
    && (forall item <- done :: IsWheel(item.filename) ==>
          item.filename in t.declarations && t.declarations[item.filename] == item)
    && (forall n <- t.declarations :: t.declarations[n] in done && t.declarations[n].filename == n)
    && (forall n <- t.files :: n in t.declarations && Offered(reader, t.declarations[n])
                            && t.files[n] == FileOf(n, reader.entry(t.declarations[n])))
    && (forall n <- t.declarations :: Offered(reader, t.declarations[n]) ==> n in t.files)
    && t.ordered == Files(reader, done)
  }

  lemma ReadsAccepts(reader: Reader, name: string, done: seq<Declared>, t: Index)
    requires Reads(reader, name, done, t)
    ensures !Rejects(reader, name, done)
  {
    forall a <- done, b <- done | IsWheel(a.filename) && a.filename == b.filename
      ensures a == b
    {
      assert t.declarations[a.filename] == a && t.declarations[b.filename] == b;
    }
  }

  lemma RejectsMore(reader: Reader, name: string, some: seq<Declared>, items: seq<Declared>)
    requires Rejects(reader, name, some) && forall item <- some :: item in items
    ensures Rejects(reader, name, items)
  {}

  /** The record of a wheel, unless another record of it was seen before. */
  method Declare(ghost reader: Reader, ghost name: string, ghost done: seq<Declared>, item: Declared, t: Index)
      returns (declarations: Option<map<string, Declared>>)
    requires Reads(reader, name, done, t) && IsWheel(item.filename)
    ensures declarations.None? ==> Contradictory(done + [item])
    ensures declarations.Some? ==>
              && declarations.value == t.declarations[item.filename := item]
              && (item in done <==> item.filename in t.declarations)
  {
    if item.filename !in t.declarations {
      return Some(t.declarations[item.filename := item]);
    }
    var previous := t.declarations[item.filename];
    if previous != item {
      assert previous in done + [item] && item in done + [item];
      return None;
    }
    assert t.declarations[item.filename := item] == t.declarations;
    return Some(t.declarations);
  }

  /** A wheel's record that is not passed over; its file is listed the first time. */
  method ListFile(
    ghost reader: Reader, ghost name: string, ghost done: seq<Declared>, item: Declared, entry: Entry, t: Index)
      returns (t': Option<Index>)
    requires Reads(reader, name, done, t) && IsWheel(item.filename) && !Offends(reader, name, item)
    requires entry == reader.entry(item) && entry.Compatible?
    requires item in done <==> item.filename in t.declarations
    requires item in done ==> t.declarations[item.filename] == item
    ensures t'.Some? && t'.value.declarations == t.declarations[item.filename := item]
    ensures t'.value.files == t.files[item.filename := FileOf(item.filename, entry)]
    ensures t'.value.ordered == if item in done then t.ordered else t.ordered + [FileOf(item.filename, entry)]
  {
    var file := FileOf(item.filename, entry);
    if item.filename in t.files {
      if t.files[item.filename] != file {
        return None;
      }
      assert t.files[item.filename := file] == t.files;
      return Some(t.(declarations := t.declarations[item.filename := item]));
    }
    return Some(Index(t.declarations[item.filename := item], t.files[item.filename := file], t.ordered + [file]));
  }

  lemma FilesNext(reader: Reader, done: seq<Declared>, item: Declared)
    ensures Files(reader, done + [item]) ==
            if item in done || !Offered(reader, item) then Files(reader, done)
            else Files(reader, done) + [FileOf(item.filename, reader.entry(item))]
  {
    assert (done + [item])[..|done + [item]| - 1] == done;
  }

  /** The records seen, and the files listed, after one more record. */
  ghost predicate Grows(reader: Reader, done: seq<Declared>, item: Declared, t: Index, t': Index) {
    && t'.declarations == t.declarations[item.filename := item]
    && if Offered(reader, item)
       then && t'.files == t.files[item.filename := FileOf(item.filename, reader.entry(item))]
            && t'.ordered == (if item in done then t.ordered
                              else t.ordered + [FileOf(item.filename, reader.entry(item))])
       else t'.files == t.files && t'.ordered == t.ordered
  }

  lemma DeclaredNext(reader: Reader, name: string, done: seq<Declared>, item: Declared, t: Index)
    requires Reads(reader, name, done, t) && !Offends(reader, name, item) && IsWheel(item.filename)
    requires item.filename in t.declarations ==> t.declarations[item.filename] == item
    ensures var declarations := t.declarations[item.filename := item];
            && (forall x <- done + [item] :: !Offends(reader, name, x))
            && (forall x <- done + [item] :: IsWheel(x.filename) ==>
                  x.filename in declarations && declarations[x.filename] == x)
            && (forall n <- declarations :: declarations[n] in done + [item] && declarations[n].filename == n)
  {
    forall x <- done + [item]
      ensures x in done || x == item
    {}
    forall x <- done
      ensures x in done + [item]
    {}
    assert item in done + [item];
  }

  lemma ReadsNext(reader: Reader, name: string, done: seq<Declared>, item: Declared, t: Index, t': Index)
    requires Reads(reader, name, done, t) && !Offends(reader, name, item) && IsWheel(item.filename)
    requires item in done <==> item.filename in t.declarations
    requires item in done ==> t.declarations[item.filename] == item
    requires Grows(reader, done, item, t, t')
    ensures Reads(reader, name, done + [item], t')
  {
    FilesNext(reader, done, item);
    DeclaredNext(reader, name, done, item, t);
  }

  /** One record of a page. */
  method ReadItem(
    reader: Reader, name: string, ghost done: seq<Declared>, item: Declared, t: Index) returns (t': Option<Index>)
    requires Reads(reader, name, done, t)
    ensures t'.None? ==> Rejects(reader, name, done + [item])
    ensures t'.Some? ==> Reads(reader, name, done + [item], t'.value)
  {
    assert item in done + [item];
    if !IsWheel(item.filename) {
      FilesNext(reader, done, item);
      return Some(t);
    }
    var declarations := Declare(reader, name, done, item, t);
    if declarations.None? {
      return None;
    }
    var entry := reader.entry(item);
    if !entry.Ignored? && (reader.project(item.filename) != name || entry.Invalid?) {
      return None;
    }
    if entry.Compatible? {
      t' := ListFile(reader, name, done, item, entry, t);
    } else {
      t' := Some(t.(declarations := declarations.value));
    }
    ReadsNext(reader, name, done, item, t, t'.value);
  }

  /**
   Reads the records of one page: rejected if two records contradict each other or one must not be
   there, else ordered for offering.  The second comparison, of files, never finds a difference.
   */
  method IndexFiles(reader: Reader, name: string, items: seq<Declared>) returns (r: Option<seq<Indexed>>)
    ensures r == PageOf(reader, name, Listing(items))
  {
    var t := Index(map[], map[], []);
    for i := 0 to |items|
      invariant Reads(reader, name, items[..i], t)
    {
      PrefixNext(items, i);
      var next := ReadItem(reader, name, items[..i], items[i], t);
      if next.None? {
        RejectsMore(reader, name, items[..i + 1], items);
        return None;
      }
      t := next.value;
    }
    assert items[..|items|] == items;
    ReadsAccepts(reader, name, items, t);
    r := Some(SortFiles(reader.maxBytes, t.ordered));
  }

  /** The files that fit, sorted four times. */
  function SortFiles(maxBytes: nat, files: seq<Indexed>): (r: seq<Indexed>)
    ensures r == IndexOrder(maxBytes, files)
  {
    StableSort(ByRelease, StableSort(ByTag, StableSort(ByBuild, StableSort(ByFile, SmallEnough(maxBytes, files)))))
  }

  /** The files of one retained answer. */
  method LoadPage(reader: Reader, name: string, response: Response) returns (page: Option<seq<Indexed>>)
    ensures page == PageOf(reader, name, response)
  {
    if response.Listing? {
      page := IndexFiles(reader, name, response.items);
    } else {
      page := if response.Absent? then Some([]) else None;
    }
  }

  // ---------- the caches ----------

  /** Two listed files with one name and hash are one file, whatever pages they are on. */
  lemma KeyIdentifiesFile(reader: Reader, n: string, a: Response, f: Indexed, m: string, b: Response, g: Indexed)
    requires PageOf(reader, n, a).Some? && f in PageOf(reader, n, a).value
    requires PageOf(reader, m, b).Some? && g in PageOf(reader, m, b).value
    requires f.filename == g.filename && (n == m ==> a == b)
    ensures f == g
  {
    PageFiles(reader, n, a);
    PageFiles(reader, m, b);
    SameName(PageOf(reader, n, a).value, f, g);
  }

  lemma SameName(files: seq<Indexed>, f: Indexed, g: Indexed)
    requires Ordered(Unrelated, files) && f in files && g in files && f.filename == g.filename
    ensures f == g
  {
    var i :| 0 <= i < |files| && files[i] == f;
    var j :| 0 <= j < |files| && files[j] == g;
    assert !(i < j) && !(j < i);
  }

  /**
   The lazy provider.  The answer of the registry for a project is retained the first time it
   is asked for, before it is read; pages and wheels are then served from memory.
   */
  class RegistryCatalog {
    const pkg: Packaging
    const reader: Reader
    /** What earlier attempts retained, and what the registry answers about other projects when first asked. */
    const earlier: map<string, Response>
    const live: map<string, Response>
    var retained: map<string, Response>
    var indexes: map<string, seq<Indexed>>
    var wheels: map<(string, string), Option<Wheel>>
    /** The names asked for, and the files acquired so far. */
    ghost var visited: set<string>
    ghost var acquired: seq<Indexed>

    /** All that this catalog can be answered with. */
    ghost function World(): Registry {
      Registry(reader, earlier, live)
    }

    ghost predicate Valid()
      reads this
    {
      RetainedValid() && IndexesValid() && WheelsValid() && forall n <- visited :: Visited(n)
    }

    ghost predicate RetainedValid()
      reads this`retained
    {
      && earlier.Keys <= retained.Keys
      && forall n <- retained :: retained[n] == ResponseTo(World(), n) && !retained[n].Unreachable?
    }

    ghost predicate IndexesValid()
      reads this`retained, this`indexes
    {
      && indexes.Keys <= retained.Keys
      && forall n <- indexes :: Page(World(), n) == Some(indexes[n])
    }

    ghost predicate WheelsValid()
      reads this`indexes, this`wheels
    {
      forall key <- wheels :: Holds(key, wheels[key])
    }

    /** A cached wheel is what inspecting the file with that name and hash on a read page gave. */
    ghost predicate Holds(key: (string, string), w: Option<Wheel>)
      reads this`indexes
    {
      exists n, f :: n in indexes && f in indexes[n] && Inspected(key, w, f)
    }

    ghost predicate Inspected(key: (string, string), w: Option<Wheel>, f: Indexed) {
      && (f.filename, f.sha256) == key
      && Inspect(reader, f) == if w.Some? then Usable(w.value) else Unusable
    }

    /** The answer about the project is retained unless it could not be fetched, and its page is read if accepted. */
    ghost predicate Visited(name: string)
      reads this`retained, this`indexes
    {
      && (name in retained || ResponseTo(World(), name).Unreachable?)
      && (Page(World(), name).Some? ==> name in indexes)
    }

    /** What was retained and what could not be fetched; any other project counts as absent. */
    ghost function View(): Registry
      reads this
    {
      Registry(reader, retained, map n | n in live && live[n].Unreachable? :: live[n])
    }

    constructor (pkg: Packaging, reader: Reader, earlier: map<string, Response>, live: map<string, Response>)
      requires forall n <- earlier :: !earlier[n].Unreachable?
      ensures Valid() && retained == earlier && visited == {}
      ensures this.pkg == pkg && this.reader == reader && this.earlier == earlier && this.live == live
    {
      this.pkg, this.reader, this.earlier, this.live := pkg, reader, earlier, live;
      retained, indexes, wheels, visited, acquired := earlier, map[], map[], {}, [];
    }

    /** The answer about a project, retained before it is read; failing to fetch one retains nothing. */
    method Retain(name: string) returns (response: Response)
      requires Valid()
      modifies this`retained
      ensures Valid() && response == ResponseTo(World(), name)
      ensures name in retained || response.Unreachable?
      ensures retained == old(retained) || (name !in old(retained) && retained == old(retained)[name := response])
    {
      if name in retained {
        return retained[name];
      }
      response := if name in live then live[name] else Absent;
      if !response.Unreachable? {
        retained := retained[name := response];
      }
    }

    method Remember(name: string, page: seq<Indexed>)
      requires Valid() && name in retained && Page(World(), name) == Some(page)
      modifies this`indexes
      ensures Valid() && indexes == old(indexes)[name := page]
    {
      ghost var before := indexes;
      indexes := indexes[name := page];
      forall key <- wheels
        ensures Holds(key, wheels[key])
      {
        var n, f :| n in before && f in before[n] && Inspected(key, wheels[key], f);
        assert n in indexes && f in indexes[n];
      }
    }

    /** The ordered page of a project, or the exception that asking for it raises. */
    method IndexOf(name: string) returns (page: Option<seq<Indexed>>, failure: Error)
      requires Valid()
      modifies this`retained, this`indexes
      ensures Valid() && Visited(name) && page == Page(World(), name)
      ensures page.None? ==> failure == FailureOf(ResponseTo(World(), name))
      ensures page.Some? ==> name in indexes && indexes[name] == page.value
      ensures old(retained).Keys <= retained.Keys && old(indexes).Keys <= indexes.Keys
    {
      failure := PolicyRejected;
      if name in indexes {
        return Some(indexes[name]), failure;
      }
      var response := Retain(name);
      failure := FailureOf(response);
      page := LoadPage(reader, name, response);
      if page.Some? {
        Remember(name, page.value);
      }
    }

    /** A cached result is that of this very file. */
    lemma CachedIsInspected(name: string, f: Indexed)
      requires Valid() && name in indexes && f in indexes[name] && (f.filename, f.sha256) in wheels
      ensures Inspected((f.filename, f.sha256), wheels[(f.filename, f.sha256)], f)
    {
      var key := (f.filename, f.sha256);
      assert Holds(key, wheels[key]);
      var n, g :| n in indexes && g in indexes[n] && Inspected(key, wheels[key], g);
      KeyIdentifiesFile(reader, name, ResponseTo(World(), name), f, n, ResponseTo(World(), n), g);
    }

    /** A file that was inspected is not acquired again; what raises is not remembered. */
    method Acquire(name: string, f: Indexed) returns (i: Inspection)
      requires Valid() && name in indexes && f in indexes[name]
      modifies this`wheels, this`acquired
      ensures Valid() && i == Inspect(reader, f)
      ensures var key := (f.filename, f.sha256);
              if key in old(wheels) then wheels == old(wheels) && acquired == old(acquired)
              else
                && acquired == old(acquired) + [f]
                && wheels == if i.Raises? then old(wheels)
                             else old(wheels)[key := if i.Usable? then Some(i.wheel) else None]
    {
      var key := (f.filename, f.sha256);
      if key in wheels {
        CachedIsInspected(name, f);
        return if wheels[key].Some? then Usable(wheels[key].value) else Unusable;
      }
      i := Inspect(reader, f);
      acquired := acquired + [f];
      if !i.Raises? {
        var w := if i.Usable? then Some(i.wheel) else None;
        assert Inspected(key, w, f);
        wheels := wheels[key := w];
      }
    }

    /** The iteration over the files of a page. */
    method AcquireAll(name: string, files: seq<Indexed>, requirements: seq<Requirement>, hashes: Option<set<string>>)
        returns (s: Stream)
      requires Valid() && name in indexes && forall f <- files :: f in indexes[name]
      modifies this`wheels, this`acquired
      ensures Valid()
      ensures s == Acquired(Inspector(reader), files, hashes, Passing(pkg, requirements))
    {
      var ws: seq<Wheel> := [];
      ghost var passes := Passing(pkg, requirements);
      for k := 0 to |files|
        invariant Valid()
        invariant Acquired(Inspector(reader), files, hashes, passes) ==
                  After(ws, Acquired(Inspector(reader), files[k..], hashes, passes))
      {
        var f := files[k];
        assert files[k..][1..] == files[k + 1..];
        AcquiredNext(Inspector(reader), files[k..], hashes, passes, ws);
        if (hashes.Some? ==> f.sha256 in hashes.value) && MatchesAll(pkg, f.version, requirements) {
          var i := Acquire(name, f);
          match i {
            case Raises(e) =>
              return Stream(ws, Some(e));
            case Unusable =>
            case Usable(w) =>
              ws := ws + [w];
          }
        }
      }
      return Stream(ws, None);
    }

    /**
     The wheels offered for a name: a function of the answer first retained for its project, whatever
     the registry would answer now.
     */
    method Options(name: string, requirements: seq<Requirement>, hashes: Option<set<string>>, prefer: bool)
        returns (s: Stream)
      requires Valid()
      modifies this
      ensures Valid() && visited == old(visited) + {name}
      ensures s == RegistryOptions(pkg, World())(name, requirements, hashes, prefer)
      ensures old(retained).Keys <= retained.Keys
    {
      OptionsAre(pkg, World(), name, requirements, hashes, prefer);
      var page, failure := IndexOf(name);
      visited := visited + {name};
      if page.None? {
        return Stream([], Some(failure));
      }
      var pre := prefer || AnyPrerelease(pkg, requirements);
      SequenceElements(page.value, pre);
      s := AcquireAll(name, Sequence(page.value, pre), requirements, hashes);
    }
  }

  function After(ws: seq<Wheel>, s: Stream): Stream {
    Stream(ws + s.wheels, s.failure)
  }

  lemma AcquiredNext(inspect: Indexed -> Inspection, files: seq<Indexed>, hashes: Option<set<string>>,
      passes: string -> bool, ws: seq<Wheel>)
    requires files != []
    ensures var now, later := Acquired(inspect, files, hashes, passes), Acquired(inspect, files[1..], hashes, passes);
            After(ws, now) ==
            if !Passes(files[0], hashes, passes) then After(ws, later)
            else match inspect(files[0])
                 case Raises(e) => Stream(ws, Some(e))
                 case Unusable => After(ws, later)
                 case Usable(w) => After(ws + [w], later)
  {
    var later := Acquired(inspect, files[1..], hashes, passes);
    if inspect(files[0]).Usable? {
      var w := inspect(files[0]).wheel;
      assert ws + ([w] + later.wheels) == (ws + [w]) + later.wheels;
    }
    assert ws + [] == ws;
  }

  /** Equal answers about a project make two registries agree about it. */
  lemma SameResponseAgrees(pkg: Packaging, a: Registry, b: Registry, name: string)
    requires a.reader == b.reader && ResponseTo(a, name) == ResponseTo(b, name)
    ensures Agree(RegistryOffers(pkg, a), RegistryOffers(pkg, b), name)
  {
    forall keys: set<Key>, hashes, pre
      ensures RegistryOffers(pkg, a)(name, keys, hashes, pre) == RegistryOffers(pkg, b)(name, keys, hashes, pre)
    {
      OffersAre(pkg, a, name, keys, hashes, pre);
      OffersAre(pkg, b, name, keys, hashes, pre);
    }
  }

  /** The retained answers of a catalog give the same answer as everything it could have been answered with. */
  lemma ViewDetermines(q: Query, c: RegistryCatalog, roster: set<string>)
    requires c.Valid() && c.pkg == q.pkg
    requires Bounded(RegistryOffers(q.pkg, c.World()), roster) && Bounded(RegistryOffers(q.pkg, c.View()), roster)
    requires Asked(q, RegistryOffers(q.pkg, c.World()), roster, map[]) <= c.visited
    ensures Answer(q, RegistryOffers(q.pkg, c.View()), roster) == Answer(q, RegistryOffers(q.pkg, c.World()), roster)
  {
    var world, view := RegistryOffers(q.pkg, c.World()), RegistryOffers(q.pkg, c.View());
    forall n <- Asked(q, world, roster, map[])
      ensures Agree(world, view, n)
    {
      assert c.Visited(n);
      SameResponseAgrees(q.pkg, c.World(), c.View(), n);
    }
    AskedDetermines(q, world, view, roster, map[]);
  }

  // ---------- the frozen snapshot ----------

  /** A retained page lists the file that a frozen wheel was pinned from, and the retained bytes are still its. */
  ghost predicate Provenance(reader: Reader, snapshot: map<string, Response>, w: Wheel) {
    && w.name in snapshot && PageOf(reader, w.name, snapshot[w.name]).Some?
    && exists f <- PageOf(reader, w.name, snapshot[w.name]).value :: Pinned(reader.store, f, w)
  }

  predicate Pinned(store: Retained, f: Indexed, w: Wheel) {
    && f.filename == w.filename && f.version == w.version && f.sha256 == w.sha256
    && store.bytes(w.artifact).Some? && Announced(store, f, store.bytes(w.artifact).value)
  }

  /** What was inspected from a listed file is pinned by it. */
  lemma InspectedIsPinned(reader: Reader, f: Indexed)
    requires Keeps(reader) && Inspect(reader, f).Usable?
    ensures Pinned(reader.store, f, Inspect(reader, f).wheel)
  {}

  ghost predicate DistinctWheels(wheels: seq<Wheel>) {
    forall i, j | 0 <= i < j < |wheels| :: wheels[i].name != wheels[j].name
  }

  /** Every page of the snapshot is accepted, and every wheel is different and comes from one of them. */
  ghost predicate ValidSnapshot(reader: Reader, snapshot: map<string, Response>, wheels: seq<Wheel>) {
    && AllLoad(reader, snapshot, snapshot.Keys)
    && DistinctWheels(wheels) && forall w <- wheels :: Provenance(reader, snapshot, w)
  }

  ghost predicate AllLoad(reader: Reader, snapshot: map<string, Response>, names: set<string>) {
    forall n <- names :: n in snapshot && PageOf(reader, n, snapshot[n]).Some?
  }

  /** Loads every page again. */
  method LoadAll(reader: Reader, snapshot: map<string, Response>) returns (pages: Option<map<string, seq<Indexed>>>)
    ensures pages.Some? <==> AllLoad(reader, snapshot, snapshot.Keys)
    ensures pages.Some? ==>
              && pages.value.Keys == snapshot.Keys
              && forall n <- snapshot :: PageOf(reader, n, snapshot[n]) == Some(pages.value[n])
  {
    var loaded: map<string, seq<Indexed>> := map[];
    var rest := snapshot.Keys;
    while rest != {}
      invariant rest <= snapshot.Keys && loaded.Keys == snapshot.Keys - rest
      invariant forall n <- loaded :: PageOf(reader, n, snapshot[n]) == Some(loaded[n])
      decreases |rest|
    {
      var name := FindLeast(rest);
      var page := LoadPage(reader, name, snapshot[name]);
      if page.None? {
        return None;
      }
      loaded, rest := loaded[name := page.value], rest - {name};
    }
    return Some(loaded);
  }

  predicate PinnedOn(store: Retained, pages: map<string, seq<Indexed>>, w: Wheel) {
    w.name in pages && exists f <- pages[w.name] :: Pinned(store, f, w)
  }

  ghost predicate Checked(store: Retained, pages: map<string, seq<Indexed>>, wheels: seq<Wheel>) {
    DistinctWheels(wheels) && forall w <- wheels :: PinnedOn(store, pages, w)
  }

  ghost function NamesOf(wheels: seq<Wheel>): set<string> {
    set w <- wheels :: w.name
  }

  lemma CheckedNext(store: Retained, pages: map<string, seq<Indexed>>, wheels: seq<Wheel>, i: nat)
    requires i < |wheels| && Checked(store, pages, wheels[..i])
    ensures Checked(store, pages, wheels[..i + 1]) <==>
              wheels[i].name !in NamesOf(wheels[..i]) && PinnedOn(store, pages, wheels[i])
    ensures NamesOf(wheels[..i + 1]) == NamesOf(wheels[..i]) + {wheels[i].name}
  {
    PrefixNext(wheels, i);
    var before, next := wheels[..i], wheels[..i + 1];
    assert next[i] == wheels[i] && forall k | 0 <= k < i :: next[k] == before[k];
    if wheels[i].name in NamesOf(before) {
      var k :| 0 <= k < i && before[k].name == wheels[i].name;
      assert next[k].name == next[i].name;
    } else {
      assert forall k | 0 <= k < i :: before[k] in before;
    }
  }

  lemma CheckedPrefix(store: Retained, pages: map<string, seq<Indexed>>, wheels: seq<Wheel>, i: nat)
    requires i <= |wheels|
    ensures Checked(store, pages, wheels) ==> Checked(store, pages, wheels[..i])
  {
    assert forall k | 0 <= k < i :: wheels[..i][k] == wheels[k];
  }

  /** Checks frozen wheels against retained pages only. */
  method ValidateSnapshot(reader: Reader, snapshot: map<string, Response>, wheels: seq<Wheel>) returns (valid: bool)
    ensures valid <==> ValidSnapshot(reader, snapshot, wheels)
  {
    var pages := LoadAll(reader, snapshot);
    if pages.None? {
      return false;
    }
    valid := CheckWheels(reader.store, pages.value, wheels);
    forall w <- wheels
      ensures PinnedOn(reader.store, pages.value, w) <==> Provenance(reader, snapshot, w)
    {}
  }

  method CheckWheels(store: Retained, pages: map<string, seq<Indexed>>, wheels: seq<Wheel>) returns (ok: bool)
    ensures ok <==> Checked(store, pages, wheels)
  {
    var seen: set<string> := {};
    for i := 0 to |wheels|
      invariant Checked(store, pages, wheels[..i]) && seen == NamesOf(wheels[..i])
    {
      CheckedNext(store, pages, wheels, i);
      if wheels[i].name in seen || !PinnedOn(store, pages, wheels[i]) {
        CheckedPrefix(store, pages, wheels, i + 1);
        return false;
      }
      seen := seen + {wheels[i].name};
    }
    assert wheels[..|wheels|] == wheels;
    return true;
  }
}
