/**
 That the assumptions on identities, recipes and readers can be met: identities for any candidates, and a
 concrete request that is asked twice.
 */
module Instances {
  import opened Text
  import opened Lines
  import opened Lists
  import opened Requirements
  import opened Closure
  import opened Search
  import opened Wheels
  import opened Recipes
  import opened Catalog
  import opened Solver
  import opened Lock

  // ---------- identities ----------

  function Mark(k: nat): string {
    seq(k, i => 'x')
  }

  ghost function RequestIndex(owners: seq<Owner>, r: Request): nat {
    if owners == [] || RequestFor(owners[0]) == r then 0 else 1 + RequestIndex(owners[1..], r)
  }

  ghost function OwnerIndex(owners: seq<Owner>, o: Owner): nat {
    if owners == [] || owners[0] == o then 0 else 1 + OwnerIndex(owners[1..], o)
  }

  lemma {:induction false} RequestAtIndex(owners: seq<Owner>, o: Owner)
    requires o in owners
    ensures var k := RequestIndex(owners, RequestFor(o)); k < |owners| && RequestFor(owners[k]) == RequestFor(o)
  {
    if RequestFor(owners[0]) == RequestFor(o) {
    } else {
      assert owners == [owners[0]] + owners[1..];
      RequestAtIndex(owners[1..], o);
    }
  }

  lemma {:induction false} OwnerAtIndex(owners: seq<Owner>, o: Owner)
    requires o in owners
    ensures var k := OwnerIndex(owners, o); k < |owners| && owners[k] == o
  {
    if owners[0] == o {
    } else {
      assert owners == [owners[0]] + owners[1..];
      OwnerAtIndex(owners[1..], o);
    }
  }

  ghost function Members(owners: seq<Owner>): iset<Owner> {
    iset o | o in owners
  }

  /** Whatever candidates there are, there are identities that tell their requests, and them, apart. */
  lemma IdentitiesExist(owners: seq<Owner>) returns (requestId: Owner -> string, candidateId: Owner -> string)
    ensures IdentifiesRequests(requestId, Members(owners))
    ensures IdentifiesCandidates(candidateId, Members(owners))
  {
    requestId := (o: Owner) => Mark(RequestIndex(owners, RequestFor(o)));
    candidateId := (o: Owner) => Mark(OwnerIndex(owners, o));
    forall a, b | a in owners && b in owners
      ensures requestId(a) == requestId(b) <==> RequestFor(a) == RequestFor(b)
      ensures candidateId(a) == candidateId(b) ==> a == b
    {
      RequestAtIndex(owners, a);
      RequestAtIndex(owners, b);
      OwnerAtIndex(owners, a);
      OwnerAtIndex(owners, b);
      assert |requestId(a)| == RequestIndex(owners, RequestFor(a));
      assert |requestId(b)| == RequestIndex(owners, RequestFor(b));
      assert |candidateId(a)| == OwnerIndex(owners, a) && |candidateId(b)| == OwnerIndex(owners, b);
    }
  }

  // ---------- a candidate for another interpreter ----------

  function TargetPackaging(): Packaging {
    Packaging(n => n, c => c, (c, v) => true, c => false, (marker, extra) => Skipped, r => true)
  }

  /** One retained wheel. */
  function OneWheel(): Retained {
    Retained(a => Some([]), data => "digest", data => Some(Distribution("tool", "1")), (file, data) => None, v => v)
  }

  function TargetReader(): Reader {
    Reader(file => "tool", item => Ignored, f => Fetched("wheel", []), c => false, OneWheel(), 1024)
  }

  function ToolProfile(): Profile {
    Profile("project", [Recipes.Listing.Listing("tool", "1", "tool.whl", "digest")])
  }

  function ToolContext(): Context {
    Context("base", ToolProfile(), map["tool.whl" := []])
  }

  function ToolRecipe(): Recipe {
    Recipe("source", "base", ToolProfile(), [BaselinePin(Pin("tool", "1", "digest"), "wheel")],
           Image("image", "base", ToolContext()), [Evidence("source", "image", ToolContext(), true)])
  }

  function ToolTask(): Task {
    Task(TargetPackaging(), TargetReader(), ToolRecipe(), None, {}, {"py3-none-any"}, "3.12.4", map[], false,
         1024, 1024)
  }

  /** All it asks for is needed by another interpreter only. */
  function ForeignOwner(backend: string): Owner {
    Owner(Metadata("project", [Requirement("setuptools", {}, {}, "python_version < '3'")], [], [], map[], backend,
                   [], {}, [], ""), ToolTask())
  }

  /** A profile lists at least one wheel. */
  function AnyProfile(): Profiles {
    (o: Owner, wheels: seq<Wheel>) => if wheels == [] then None else Some("profile")
  }

  lemma ToolIsConstructed()
    ensures Constructed(TargetPackaging(), OneWheel(), ToolContext())
  {
    var context := ToolContext();
    var d, x := context.profile.dependencies[0], Distribution("tool", "1");
    assert context.profile.dependencies == [d] && [d][1..] == [];
    assert Installed(OneWheel(), context, [d]) == [x] + Installed(OneWheel(), context, []);
    assert [x][..0] == [] && VersionsOf([x]) == map["tool" := "1"];
    assert Expected(TargetPackaging(), [d]) == map["tool" := "1"];
  }

  lemma ToolRecipeIsValid()
    ensures ValidRecipe(TargetPackaging(), OneWheel(), 1024, ToolRecipe())
  {
    var d, b := ToolProfile().dependencies[0], ToolRecipe().pins[0];
    assert ToolProfile().dependencies == [d] && ToolRecipe().pins == [b];
    assert [b][..0] == [] && Agrees(OneWheel(), [d], b);
    assert FilesOf(OneWheel(), [d], [b]) == FilesOf(OneWheel(), [d], [])["tool.whl" := []];
    assert TotalSize(OneWheel(), [b]) == TotalSize(OneWheel(), []) + 0;
    assert CanonicalName(TargetPackaging())(d) == "tool" && ListedName(d) == "tool" && PinName(b) == "tool";
    assert Mapped(CanonicalName(TargetPackaging()), [d]) == ["tool"];
    assert Mapped(PinName, [b]) == ["tool"] && Mapped(ListedName, [d]) == ["tool"];
  }

  lemma ForeignIsAdmitted(backend: string)
    ensures Evidenced(ToolTask()) && Refusal(ForeignOwner(backend)).None?
    ensures ClausesKeepMeaning(TargetPackaging()) && Keeps(TargetReader())
  {
    ToolIsConstructed();
    ToolRecipeIsValid();
  }

  /** No wheel is needed, so the search succeeds with none. */
  lemma ForeignAnswer(backend: string, offers: Offers, roster: set<string>)
    requires Bounded(offers, roster)
    ensures Listed(Answer(Canonical(ProblemOf(ForeignOwner(backend))), offers, roster)) == Roster([])
  {
    var q := Canonical(ProblemOf(ForeignOwner(backend)));
    assert q.constraints == {};
    assert forall k <- q.roots :: MarkerVerdict(q.pkg, k.marker, "") == Skipped;
    EmptyClosure(q);
    EmptyStartsComplete(q, offers, roster);
  }

  lemma BackendsDiffer(a: string, b: string)
    ensures RequestFor(ForeignOwner(a)) == RequestFor(ForeignOwner(b)) <==> a == b
  {
    assert RequestFor(ForeignOwner(a)).semantics.backend == a;
    assert RequestFor(ForeignOwner(b)).semantics.backend == b;
  }

  /** A new cache for two candidates with different requests; their backends identify both. */
  method TwoCandidates() returns (cache: RequestCache, c: RegistryCatalog)
    ensures fresh(cache) && fresh(c) && cache.Valid() && cache.Lawful() && c.Valid()
    ensures cache.locks == map[] && cache.candidates == map[] && cache.make == AnyProfile()
    ensures ForeignOwner("a") in cache.family && ForeignOwner("b") in cache.family
    ensures RequestFor(ForeignOwner("a")) != RequestFor(ForeignOwner("b"))
    ensures c.pkg == TargetPackaging() && c.reader == TargetReader()
  {
    var backend := (o: Owner) => o.metadata.backend;
    var a, b := ForeignOwner("a"), ForeignOwner("b");
    BackendsDiffer("a", "b");
    cache := new RequestCache(backend, backend, AnyProfile(), iset{a, b});
    c := new RegistryCatalog(TargetPackaging(), TargetReader(), map[], map[]);
  }

  /** The cache may be asked about the candidate, which passes all checks. */
  ghost predicate MayAsk(cache: RequestCache, c: RegistryCatalog, o: Owner)
    reads cache, c
  {
    && cache.Valid() && cache.Lawful() && o in cache.family && Refusal(o).None?
    && ClausesKeepMeaning(o.task.pkg) && Evidenced(o.task)
    && c.Valid() && c.pkg == o.task.pkg && c.reader == o.task.reader && Keeps(c.reader)
  }

  /** The empty closure is retained, but gives the candidate nothing. */
  method AskOnce() returns (cache: RequestCache, c: RegistryCatalog, o: Owner, first: Lock.Outcome)
    ensures fresh(cache) && fresh(c) && MayAsk(cache, c, o) && cache.candidates == map[]
    ensures var id := cache.requestId(o);
            id in cache.locks && cache.locks[id].wheels == [] && !cache.locks[id].failed
    ensures first == Unresolved
  {
    cache, c := TwoCandidates();
    o := ForeignOwner("a");
    ForeignIsAdmitted("a");
    first := cache.CandidateDependencies(o, c);
    ForeignAnswer("a", OffersOf(Live(c), c.pkg), RosterOf(Live(c)));
  }

  /**
   The empty closure, by the whole program: the first answer is that dependencies are not available, and the
   second, to the same candidate, that the lock it finds is refused.
   */
  method AskTwice() returns (first: Lock.Outcome, again: Lock.Outcome)
    ensures first == Unresolved && again == Refused(PolicyRejected)
  {
    var cache, c, o;
    cache, c, o, first := AskOnce();
    again := AskAgain(cache, c, o);
  }

  /** Whoever asks for what was found to need no wheel is refused. */
  method AskAgain(cache: RequestCache, c: RegistryCatalog, o: Owner) returns (r: Lock.Outcome)
    requires MayAsk(cache, c, o) && cache.candidateId(o) !in cache.candidates
    requires cache.requestId(o) in cache.locks
    requires cache.locks[cache.requestId(o)].wheels == [] && !cache.locks[cache.requestId(o)].failed
    modifies cache, c
    ensures r == Refused(PolicyRejected)
  {
    ghost var locks, candidates := cache.locks, cache.candidates;
    r := cache.CandidateDependencies(o, c);
    EmptyIsRefused(cache, o, RegistryAnswer(ProblemOf(o), c), r, locks, candidates);
  }

  lemma EmptyIsRefused(cache: RequestCache, o: Owner, found: SolveResult, r: Lock.Outcome,
      locks: map<string, Frozen>, candidates: map<string, Candidate>)
    requires cache.Answers(o, found, r, locks, candidates) && cache.candidateId(o) !in candidates
    requires cache.requestId(o) in locks && locks[cache.requestId(o)].wheels == []
    requires !locks[cache.requestId(o)].failed
    ensures r == Refused(PolicyRejected)
  {}
}
