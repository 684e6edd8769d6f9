# Controller proofs

A Dafny 4.11 model of the trusted controller of this repository: the parts that choose and freeze
dependencies, project events onto a durable log, own containers and workspaces, print a manifest,
store artifacts, run an agent episode, and estimate audit and study results.  Check everything with
`dafny verify dfyconfig.toml`.

## What is modelled

* **The dependency solver** (`Text`, `Requirements`, `Closure`, `Search`, `Asking`, `Sorting`, `Wheels`,
  `Catalog`, `Solver`, `Recipes`, `Lock`).  `Closure` says what a selection of wheels needs: the least set of requirements, each
  with the extra under which it is read, that contains the roots and everything that selected wheels
  pull in.  `Search` says which closures are acceptable and describes the depth-first choice among
  them, `Asking` the names for which it asks its provider.  `Catalog` is the registry: pages that are
  fetched when they are first asked for, retained before they are read, and may be refused in the middle
  of a search; a wheel is what opening its retained bytes (`Wheels`) shows.  `Solver` is the program: the worklist that computes a closure, and the stack of suspended
  iterators that explores choices without recursion; over an archive or over the registry it is proved to
  end with the answer of `Search` for the canonical form of its declarations.  `Recipes` has the checks on
  a task's recipe: its pins, the profile they must match, and the image built from both.  `Lock` adds the
  checks every request begins with, the identity of a request, the replay of a frozen roster, and the cache of
  requests and candidates.
* **The crash-safe outbox** (`Lines`, `Outbox`).  `Disk` is what survives a process.  A run is any
  sequence of atomic steps (a committed transaction, some bytes appended, a sync, an acknowledgement,
  a loss of unsynced bytes, a published object); a crash is a run that stops.  The class `Probe` is the
  program: every effect it has is shown to be such a step, with an exit possible at each named point
  and in the middle of every append.
* **Container ownership and workspace generations** (`Ownership`, `Sessions`).  Any number of
  controller processes share one state directory, one lock and one Docker socket.  `Ownership` gives
  the steps and what every run of them keeps; `Sessions` is the program, whose effects may succeed,
  raise with or without having happened, or end with the process, and between whose locked sections
  other processes make arbitrary steps.
* **The Cargo manifest printer** (`Toml`, `Manifest`).  `Toml` reads text back by the rules of TOML
  v1.0.0 (sections "String", "Integer", "Float", "Boolean", "Array", "Table", "Array of Tables");
  `Manifest` is the printer with its limits.
* **Audit sampling and intervals** (`Sampling`, `Intervals`), in exact real arithmetic.
* **The content-addressed store** (`Base64`, `Store`), down to files shared by two directory entries.
* **The agent episode** (`Episodes`): budgets, grading, the frozen record and its publication.
* **The paired study** (`Lists`, `Study`, `Statistics`, `Evaluation`): the roster and its receipts, estimates
  and bootstrap percentiles, and the summary of all arms and comparisons.
* **Instances** (`Instances`, `Codecs`).  Identities, encodings and a digest that meet the assumptions below, and a
  request for which the cache is built, asked and asked again.

Specifications are functions and predicates; what the source does by changing state is a class with
methods, and what it does by a loop is a method with that loop.  `Runs` relates the ends of a run of steps
to each other by what every step keeps.

## Where the code does not meet its promise

* **Empty closures.**  When no root requirement applies to the target, the search succeeds with no
  wheel; the lock is written, the first call still reports the dependencies as unavailable (a runtime
  profile must list at least one), and every later call refuses the lock it finds, because an empty
  roster is rejected on replay.  `Lock.CacheAgreesWithSearch` shows that the cache repeats the answer
  of the search exactly when some root requirement applies, and `Lock.ForeignRequestIsRefusedOnReplay`
  gives a request on which it does not.  `Instances.AskTwice` is the whole program on such a candidate: its first
  answer is that the dependencies are unavailable, and its second that the lock is refused.
* **U+007F in a manifest.**  JSON leaves this character as it is; a TOML basic string must not contain
  it.  `Manifest.RoundTrip` shows that the printed text reads back as the value exactly when no string
  and no key contains it, and is not TOML otherwise; `Manifest.DeleteIsNotEscaped` is the shortest case.
* **A daemon replaced before creation.**  Cleanup asks the daemon for its identity, creation does not.
  `Ownership.OwnershipIsKeptExactly` shows that no container of a run can ever lose its live record if and
  only if each one is created while the recorded daemon is the one that answers, which creation could check;
  `Ownership.MisplacedContainer` is a run in which it is not.

## What published rates mean

A unit of several episodes succeeds as soon as one of them resolves, and is invalid as soon as one was not
measured; it can be both.  So the all-assigned rate of an arm is at least its resolved by its assigned units,
and equal to it exactly if no unit has receipts of both kinds (`Evaluation.PublishedRates`).
`Evaluation.SmallStudyDiffers` is an accepted study of two episodes in which the rate is one and no unit counts
as resolved.  Of single episodes, for which docs/interfaces-M8.md:23 promises the quotient, there is no such
unit (`Evaluation.SingleEpisodeRates`).  The valid-only rate is always the resolved by the valid units.

## What is assumed

* Packaging's specifiers, versions and markers are functions of their arguments, and canonical versions
  keep the meaning of a specifier (`Requirements.ClausesKeepMeaning`), so that equal requirement keys
  mean equal requirements.  Orders of versions and build tags are given by ranks.
* A registry has one answer for each project, which a catalog fetches when it first asks, and knows finitely
  many projects.  Bytes that were fetched for a file are retained under the reference they were given
  (`Catalog.Keeps`); that retained bytes are read back is a theorem of `Store`.
* `pip` installs a supplied wheel for a listed name only if it has the listed hash and is of that name
  (`Recipes.Installs`).  The two spellings of name normalisation, in profiles and in the packaging library, are
  one function.  Evidence of an image is only left by constructing it, which `Recipes.Construct` does.
* Among the candidates that one controller is ever given (`Lock.RequestCache.family`), identities of requests and
  candidates differ when what they are computed from does.  There are such identities for any list of candidates
  (`Instances.IdentitiesExist`), and `Instances.TwoCandidates` makes a cache for two whose requests differ.
* Different bytes have different SHA-256 digests; encodings of events and envelopes can be decoded, and
  an encoded event contains one newline, at its end.  `Codecs` has encodings of which this is proved, with a
  digest that only spells the bytes.  Generated identifiers are new.
* Each Docker command, file replacement and transaction is atomic.  The daemon behind the socket does
  not change while the lock is held.
* The numbers of the estimates are exact reals, and the square root is one whose square is its argument.

## Model

| member | source | states |
|---|---|---|
| Requirements.KeyMeaning | src/feature_rl/environments/candidates.py:281-292 | a requirement and its canonical key accept the same versions |
| Requirements.FirstPinsHold | src/feature_rl/environments/candidates.py:479-482 | of the pins that reduce to a name, the first in the list is the one demanded |
| Closure.ReachIsLeast | src/feature_rl/environments/candidates.py:441-473 | what a selection reaches is closed under roots, extras and dependencies, and contained in every closed set |
| Closure.ReachUnique | src/feature_rl/environments/candidates.py:441-473 | a closed set contained in every other is that fixed point, whatever order found it |
| Closure.ReachMonotone | src/feature_rl/environments/candidates.py:441-473 | a larger selection reaches at least as much, which is why pruning is sound |
| Closure.ReachSaturated | src/feature_rl/environments/candidates.py:519-521 | once every needed name is selected, further wheels add nothing reachable |
| Closure.ConflictPersists | src/feature_rl/environments/candidates.py:465-466 | a closure refused for a selection is refused for every extension of it |
| Search.TotalMonotone | src/feature_rl/environments/candidates.py:500-502 | byte and disk totals only grow with the selection, so the caps prune no solution |
| Search.SolveIsSound | src/feature_rl/environments/candidates.py:507-524 | a returned selection is acceptable (needed names are exactly the selected ones, each wheel passes every accumulated requirement, extra, hash, artifact, tag and interpreter check, caps hold) and was supplied; an honest provider causes no failure |
| Search.SolveIsComplete | src/feature_rl/environments/candidates.py:507-524 | if any acceptable closure can be supplied, one is returned, and it is that one or comes first in depth-first order |
| Search.AcceptableIsExact | src/feature_rl/environments/candidates.py:515-524 | an acceptable closure has no acceptable proper part, so no wheel is missing or superfluous |
| Search.PreferenceIsStrict | src/feature_rl/environments/candidates.py:505-524 | two acceptable closures that are each preferred to the other are equal, so there is one first answer |
| Search.ReplayIsExact | src/feature_rl/environments/candidates.py:546-558 | solving with a roster as the only supply returns that roster if and only if it is an acceptable closure |
| Search.ReplayReproduces | src/feature_rl/environments/candidates.py:551-558 | whatever provider found a closure, replaying the closure alone finds exactly it again |
| Search.EmptyClosure | src/feature_rl/environments/candidates.py:444-454 | no wheel is needed if and only if no root requirement applies to the target |
| Asking.AskedDetermines | src/feature_rl/environments/candidates.py:505-524 | the answer of a search depends on nothing but what its provider says about the names it asks for |
| Asking.SelectedWasAsked | src/feature_rl/environments/candidates.py:505-524 | every selected name was asked for |
| Asking.FailsExactly | src/feature_rl/environments/candidates.py:505-524 | when each name is either answered or refused as a whole, a search fails exactly if it asks for a refused one |
| Solver.GroupConstraints | src/feature_rl/environments/candidates.py:417-429 | groups the applicable constraints by name, or refuses when a constraint is unsafe or cannot be evaluated |
| Solver.ComputeClosure | src/feature_rl/environments/candidates.py:441-473 | the worklist ends, refuses a selection exactly on a conflict of the specified closure, and otherwise yields the requirements and extras of the least fixed point |
| Solver.Offer | src/feature_rl/environments/candidates.py:490-503 | one question gives what the supply specifies, and the registry remembers the name |
| Solver.TryWheel | src/feature_rl/environments/candidates.py:491-503 | a wheel is admitted exactly if it passes the filters of the specification |
| Solver.Extend | src/feature_rl/environments/candidates.py:475-503 | the wheels left to try for a name are those that the specification has offered, with the baseline pin demanded when dependencies are forbidden |
| Solver.Run | src/feature_rl/environments/candidates.py:505-524 | the stack of suspended iterators ends with the recursive depth-first answer, having asked for exactly the names that the answer depends on |
| Solver.Solve | src/feature_rl/environments/candidates.py:408-524 | over an archive or a live registry the search returns the specified answer for the canonical declarations, has asked for exactly the names that the answer depends on, and refuses unsafe declarations before asking |
| Solver.ListInOrder | src/feature_rl/environments/candidates.py:521 | the roster is listed in the order of its names |
| Recipes.CheckProfile | src/feature_rl/environments/profiles.py:62-94 | a profile passes exactly if names, spellings of names and file names are distinct and the project is not among them |
| Recipes.DependencyFiles | src/feature_rl/environments/profiles.py:176-200 | the supply of an image, refused exactly if pins and profile differ in number, name, version, hash or bytes, or they do not fit |
| Recipes.CheckInstalled | src/feature_rl/environments/images.py:60-68 | the check in the image passes exactly if what is installed is, once each, what the profile names |
| Recipes.ValidateRecipe | src/feature_rl/environments/profiles.py:203-221 | a recipe passes exactly if its profile is canonical, its pins are those of the profile with the right bytes, and image and evidence are those of a construction from both |
| Recipes.ListedIsHeld | src/feature_rl/environments/images.py:40-68 | in a constructed image every listed file holds the distribution it is listed as |
| Recipes.CheckedPinIsGenuine | src/feature_rl/environments/profiles.py:176-200 | the pins of a checked recipe have the name, version and hash that their artifacts hold |
| Recipes.CheckedPinsAreApart | src/feature_rl/environments/profiles.py:90-93 | no two pins of a checked recipe pin one name, however it is spelled |
| Lock.RequestDeterminesQuery | src/feature_rl/environments/candidates.py:295-302 | equal request identities mean equal canonical queries if and only if dependencies are not restricted to baseline pins or both baselines pin every name alike |
| Lock.CheckedIsGenuine | src/feature_rl/environments/runtime.py:126-134 | the checks on a task imply that its pins say what their artifacts hold and that no name is pinned twice |
| Lock.CheckedTasksShare | src/feature_rl/environments/candidates.py:383-399 | checked tasks with equal request identities pin every name alike, so they ask equal queries, although the identity names artifacts only |
| Lock.SharedRequestSharesAnswer | src/feature_rl/environments/candidates.py:295-302 | candidates of checked tasks that share a request identity get the same answer from every provider, whatever the order and repetition of their declarations |
| Lock.CheckInputs | src/feature_rl/environments/candidates.py:320-366 | the reasons to turn a candidate away, in their order: recipe, allowed artifacts, project, unsafe declarations, changed declarations, runtime |
| Lock.RestrictedAsksItsBaseline | src/feature_rl/environments/candidates.py:345-354 | a candidate that must not change dependencies and is not turned away has the request and the query of its baseline |
| Lock.ByName | src/feature_rl/environments/candidates.py:547 | wheels by name, every one of them from the list and every name of the list present |
| Lock.ReplayRoster | src/feature_rl/environments/candidates.py:546-558 | a frozen list is accepted if and only if the declarations can be evaluated and it is the ordered list of a nonempty acceptable closure |
| Lock.FrozenIsValid | src/feature_rl/environments/catalog.py:381-425 | what a search selected from the registry has its provenance in the pages that were read for it |
| Lock.Resolve | src/feature_rl/environments/runtime.py:172-178 | a first resolution gives the answer of the search over all the registry could be asked, which is also that over the retained pages alone, with a valid snapshot |
| Lock.ReadLock | src/feature_rl/environments/candidates.py:532-560 | for any safe declarations a lock is accepted exactly if its snapshot is valid and its roster is the declared closure, or it records a failure without wheels |
| Lock.GoodForAll | src/feature_rl/environments/candidates.py:295-302 | a lock that is good for one candidate of a request is good for every other one, of whatever checked task |
| Lock.RequestCache.RetainFirst | src/feature_rl/environments/runtime.py:176-187 | the answer is retained before it is used, also when there is no closure, but not when the search raised |
| Lock.RequestCache.ReadFor | src/feature_rl/environments/runtime.py:188-190 | a retained lock is replayed for any candidate of its request without asking the registry |
| Lock.RequestCache.Revisit | src/feature_rl/environments/runtime.py:167-169 | a candidate that was resolved before gets the same resolution and profile again |
| Lock.RequestCache.CandidateDependencies | src/feature_rl/environments/runtime.py:135-194 | what the checks turn away changes nothing; a known candidate gets its resolution again; a known request is replayed; else the answer of the search is retained first; only the one entry is added |
| Lock.CacheAgreesWithSearch | src/feature_rl/environments/runtime.py:170-190 | a retained answer is repeated by replay if and only if some root requirement applies |
| Lock.ForeignRequestIsRefusedOnReplay | src/feature_rl/environments/candidates.py:548-549 | a concrete request whose lock is written and then refused |
| Instances.IdentitiesExist | src/feature_rl/environments/candidates.py:375-399 | for any list of candidates there are identities that agree on two of them exactly if their requests, or the candidates, are the same |
| Instances.ToolRecipeIsValid | src/feature_rl/environments/profiles.py:203-221 | a concrete recipe of one pinned wheel passes all its checks |
| Instances.TwoCandidates | src/feature_rl/environments/candidates.py:383-399 | a new cache, with lawful identities, for two candidates that have different requests |
| Instances.AskTwice | src/feature_rl/environments/runtime.py:165-194 | a candidate that needs no wheel is told that its dependencies are unavailable, and at the second request that its own lock is refused |
| Sorting.StableSortIsLexicographic | src/feature_rl/environments/catalog.py:165-168 | sorting stably by a key a list ordered by another orders it by both |
| Sorting.OrderIsUnique | src/feature_rl/environments/catalog.py:165-168 | two lists of the same elements in one strict order are equal |
| Catalog.OfferOrderIsPreference | src/feature_rl/environments/catalog.py:165-168 | the successive sorts and the later prerelease sort refine one lexicographic preference: final release, version, tag, build, file name, hash |
| Catalog.OfferOrderIgnoresPageOrder | src/feature_rl/environments/catalog.py:368-370 | the order of the offers does not depend on the order in which the page lists its files |
| Catalog.RegistryReflects | src/feature_rl/environments/catalog.py:358-379 | the offers for a list of requirements depend only on the set of their keys |
| Catalog.RegistryIsHonest | src/feature_rl/environments/catalog.py:371-379 | a registry view only offers wheels of the name that was asked for, and only for names it has pages of |
| Catalog.OnPageIsSupplied | src/feature_rl/environments/catalog.py:371-379 | every wheel on a page that the hashes in force allow is offered whenever its version satisfies the requirements |
| Catalog.RegistrySearchIsComplete | src/feature_rl/environments/runtime.py:174-176 | if an acceptable closure can be built from the retained pages, the search over them returns the preferred one |
| Catalog.RegistryFailsExactly | src/feature_rl/environments/catalog.py:358-379 | a search over the registry is refused exactly if it asks for a project whose page is unreachable or not accepted |
| Catalog.PageOrderIsIrrelevant | src/feature_rl/environments/catalog.py:285-312 | the answer of the search does not depend on the order of the page listings |
| Catalog.IndexFiles | src/feature_rl/environments/catalog.py:86-171 | a page is rejected exactly if two records share a file name and differ, or a record must not be there; else its usable files come in the order of preference |
| Catalog.LoadPage | src/feature_rl/environments/catalog.py:174-185 | a retained absence has no files, and a retained page those it lists |
| Catalog.PageConfirms | src/feature_rl/environments/catalog.py:314-356 | whatever is fetched for a listed file, it is usable only with the name, version, file name and hash of its entry |
| Catalog.KeyIdentifiesFile | src/feature_rl/environments/catalog.py:314-319 | two listed files with one name and hash are one file on one page, so caching by both confuses none |
| Catalog.RegistryCatalog.Retain | src/feature_rl/environments/catalog.py:285-307 | an answer, also an absence, is retained before it is read and never replaced; a failure to fetch retains nothing |
| Catalog.RegistryCatalog.IndexOf | src/feature_rl/environments/catalog.py:285-312 | a project has the files of its retained answer, or raises what that answer raises, however often it is asked for |
| Catalog.RegistryCatalog.CachedIsInspected | src/feature_rl/environments/catalog.py:314-319 | a cached wheel is the inspection of this very file |
| Catalog.RegistryCatalog.Acquire | src/feature_rl/environments/catalog.py:314-356 | a file that was inspected is not acquired again; else its bytes are checked and opened, the result is kept, usable or not, and what raises is not |
| Catalog.RegistryCatalog.AcquireAll | src/feature_rl/environments/catalog.py:371-379 | the usable wheels of the listed files that pass hashes and versions, in their order, up to the first file that raises |
| Catalog.RegistryCatalog.Options | src/feature_rl/environments/catalog.py:358-379 | the offers, and what interrupts them, are a function of the answer first retained, whatever the registry would answer now |
| Catalog.ViewDetermines | src/feature_rl/environments/catalog.py:381-390 | a search gives the same answer over the retained pages as over all that the registry could have been asked |
| Catalog.ValidateSnapshot | src/feature_rl/environments/catalog.py:392-425 | frozen wheels are valid exactly if all retained pages are accepted, no name is repeated, and each wheel is pinned by a listed file whose hash and size its retained bytes have |
| Lines.SplitRejoins | docs/evidence/M6/durability-preflight-probe.py:149-150 | splitting at newlines yields whole lines and a rest without newline that join to the original |
| Lines.SplitConcat | docs/evidence/M6/durability-preflight-probe.py:149-150 | splitting a log of whole lines gives the lines back |
| Lines.ConsistentIsPrefix | docs/evidence/M6/durability-preflight-probe.py:143-157 | the checks pass if and only if the log is a byte prefix of the events that contains all acknowledged ones |
| Codecs.EventsAreLawful | docs/evidence/M6/durability-preflight-probe.py:122-131 | an encoding of events that reads back and has no newline before its end |
| Outbox.KeysIdentify | docs/evidence/M6/durability-preflight-probe.py:122-131 | event keys of different attempts or kinds never collide |
| Outbox.RecordMeaning | docs/evidence/M6/durability-preflight-probe.py:122-131 | recording an event changes nothing on an exact repeat, refuses another body under the key, and else appends the next number |
| Outbox.RunKeepsInv | docs/evidence/M6/durability-preflight-probe.py:134-181 | in every state of every run numbers are 1 to n, keys distinct, the log a prefix of the events, acknowledged events synced, objects named by their digests, and one choice judged by all completions |
| Outbox.RecoveryIsPossible | docs/evidence/M6/durability-preflight-probe.py:143-157 | wherever a run stopped, even in the middle of an append, a projection accepts the log |
| Outbox.SingleSelection | docs/evidence/M6/durability-preflight-probe.py:243-263 | at most one completion is ever selected; it is the recorded result and attempt, and its object is published |
| Outbox.HistoryOnlyGrows | docs/evidence/M6/durability-preflight-probe.py:122-131 | events are never rewritten, reordered or dropped, the choice and published objects never change |
| Outbox.DecisionMeaning | docs/evidence/M6/durability-preflight-probe.py:247-255 | a completion is refused exactly if its attempt reported another digest; a repeat gives its old decision, a first one is judged against the choice |
| Outbox.Probe.Restart | docs/evidence/M6/durability-preflight-probe.py:80-96 | a new process finds the tables, objects and at least the synced part of the log |
| Outbox.Probe.WriteAll | docs/evidence/M6/durability-preflight-probe.py:72-77 | partial writes append a prefix of the data, and a normal end all of it |
| Outbox.Probe.CheckLog | docs/evidence/M6/durability-preflight-probe.py:143-157 | refuses exactly the logs that are no such prefix, and otherwise computes what is missing |
| Outbox.Probe.Append | docs/evidence/M6/durability-preflight-probe.py:158-165 | appends the missing bytes, or at its crash point half of the first missing line |
| Outbox.Probe.Acknowledge | docs/evidence/M6/durability-preflight-probe.py:165-173 | the acknowledgement moves only after all events are written and synced |
| Outbox.Probe.Project | docs/evidence/M6/durability-preflight-probe.py:134-181 | refused if and only if a transaction is open or the log is not acceptable, and then nothing changes; a normal end leaves the log equal to the events, synced and acknowledged |
| Outbox.Probe.Recover | docs/evidence/M6/durability-preflight-probe.py:354-356 | after any run neither projection is refused, and the second appends nothing |
| Outbox.Probe.CommitTo | docs/evidence/M6/durability-preflight-probe.py:259-262 | a transaction with crash points on both sides is durable as a whole or not at all |
| Outbox.Probe.Register | docs/evidence/M6/durability-preflight-probe.py:189-201 | refused if and only if the attempt name is reused; otherwise the attempt and its event are recorded together or not at all |
| Outbox.Probe.Start | docs/evidence/M6/durability-preflight-probe.py:189-203 | refused exactly in an open transaction or for a reused attempt, and then nothing changes; a normal end has also projected and acknowledged the new event |
| Outbox.Probe.ObserveWork | docs/evidence/M6/durability-preflight-probe.py:206-219 | unless the process exits, refused exactly in an open transaction or if another measurement of the attempt is recorded; otherwise that measurement ends up recorded once |
| Outbox.Probe.Decide | docs/evidence/M6/durability-preflight-probe.py:246-263 | one event and, for the first completion, the choice; nothing on a repeat |
| Outbox.Probe.Complete | docs/evidence/M6/durability-preflight-probe.py:243-263 | refused exactly without the object, in an open transaction, before a job exists, or for another digest under the attempt |
| Outbox.Probe.WritePending | docs/evidence/M6/durability-preflight-probe.py:222-228 | a temporary file holds a prefix of the data, and all of it unless the process died or a write made no progress |
| Outbox.Probe.Link | docs/evidence/M6/durability-preflight-probe.py:230-234 | an object name ends up holding exactly these bytes, and no other name changes |
| Outbox.Probe.Publish | docs/evidence/M6/durability-preflight-probe.py:222-240 | returns the digest only when the object is published and the temporary file gone; refused exactly if that file exists; a write without progress leaves it behind and publishes nothing |
| Ownership.RunKeepsOwned | src/feature_rl/environments/docker.py:289-322 | in every reachable state, also between creating a container and recording its identifier, each container has a durable record, which does not say "removed" unless the container is on another daemon than recorded |
| Ownership.NothingLeft | src/feature_rl/environments/docker.py:232-249 | when every record says "removed", no container is left where its record says it is |
| Ownership.SessionIsAlone | src/feature_rl/environments/docker.py:50-58 | while an operation holds the lock, no record or container of another one changes |
| Ownership.RunIsHistory | src/feature_rl/environments/docker.py:279-281 | over any run phases only advance, "removed" is final, one generation of a workspace has one content, and closed stays closed |
| Ownership.GenerationCountsChanges | src/feature_rl/environments/runtime.py:386-393 | all changes of a workspace form one linear history that its generation counts |
| Ownership.NoLostUpdate | src/feature_rl/environments/runtime.py:386-393 | two operations admitted against the same generation never both save |
| Ownership.WhoWrites | src/feature_rl/environments/runtime.py:404-417 | a workspace changes only under a running operation admitted against its present generation and source, or when every record says "removed" |
| Ownership.OwnershipIsKeptExactly | src/feature_rl/environments/docker.py:289-322 | in a run no container can ever be orphaned if and only if each is created while the daemon that its record names is the one that answers |
| Ownership.PlacedIsHeld | src/feature_rl/environments/docker.py:289-322 | with that guard at every creation, each container always has a record that is not "removed" and names its daemon |
| Ownership.OrphansAreMisplaced | src/feature_rl/environments/docker.py:305-316 | a container can come to exist with a "removed" record if and only if it was created on another daemon than recorded |
| Ownership.MisplacedContainer | src/feature_rl/environments/docker.py:262-276 | a run in which that happens |
| Sessions.Engine.Lock | src/feature_rl/environments/docker.py:50-58 | the lock is taken only if free, after others had their turn |
| Sessions.DockerSession.Persist | src/feature_rl/environments/docker.py:279-281 | the record advances in memory and, as one effect that may raise, on disk |
| Sessions.DockerSession.VerifyAbsent | src/feature_rl/environments/docker.py:407-420 | a normal end means the container is absent on the recorded daemon; at most this container was removed |
| Sessions.DockerSession.Conclude | src/feature_rl/environments/docker.py:421-427 | returns normally only with verified absence recorded; errors are recorded with a second try |
| Sessions.DockerSession.Cleanup | src/feature_rl/environments/docker.py:401-427 | a normal return means absent and recorded "removed"; other operations and all workspaces are untouched on every way out |
| Sessions.DockerSession.Admit | src/feature_rl/environments/docker.py:291-318 | intent is durable before the workspace check and the creation; a normal end holds a running record and an unchanged workspace |
| Sessions.DockerSession.Launch | src/feature_rl/environments/docker.py:305-316 | creation and start, recorded one after the other; a normal end is an admitted, running operation |
| Sessions.DockerSession.Enter | src/feature_rl/environments/docker.py:289-322 | entering either holds the lock with an admitted, running operation, or has cleaned up and dropped the lock |
| Sessions.DockerSession.Exit | src/feature_rl/environments/docker.py:428-430 | the lock is dropped in any case, and a normal return means "removed" |
| Sessions.EnvironmentRuntime.RecoverEach | src/feature_rl/environments/docker.py:235-240 | a normal end leaves every record "removed", and workspaces are untouched |
| Sessions.EnvironmentRuntime.RecoverOwned | src/feature_rl/environments/docker.py:232-241 | a normal return leaves no container where its record says it is, and the lock free |
| Sessions.EnvironmentRuntime.RequireClean | src/feature_rl/environments/docker.py:243-249 | passes if and only if every record says "removed" |
| Sessions.EnvironmentRuntime.OpenWorkspace | src/feature_rl/environments/runtime.py:215-233 | a returned handle names an open workspace at generation 0 whose initial and saved source agree |
| Sessions.EnvironmentRuntime.Save | src/feature_rl/environments/runtime.py:391-393 | the snapshot read before locking is still the workspace, so writing it with the next generation overwrites nothing newer |
| Sessions.EnvironmentRuntime.Prepare | src/feature_rl/environments/runtime.py:373-381 | staging and setup report the first step that does not succeed |
| Sessions.EnvironmentRuntime.Perform | src/feature_rl/environments/runtime.py:372-394 | the reported reason is that of the first step that failed; the source is saved exactly when the command exited and left an allowed, changed one, and "saved" follows the write |
| Sessions.EnvironmentRuntime.Execute | src/feature_rl/environments/runtime.py:339-403 | a product is only run that was built, completely and cleanly, from the very source that was read and with the same dependency resolution; what is reported is determined by the steps of the work; "saved" means that the new workspace directly follows the one that was read, with nobody writing in between, and otherwise the last confirmed source is reported |
| Sessions.EnvironmentRuntime.End | src/feature_rl/environments/runtime.py:404-417 | reset and close answer only if at the locked moment every operation was removed and the workspace open, and then make exactly their one change |
| Manifest.QuoteReads | src/feature_rl/environments/cargo_manifest.py:43-54 | a quoted string reads back, unless it contains U+007F: then nothing is read |
| Manifest.ScalarReads | src/feature_rl/environments/cargo_manifest.py:20-27 | a scalar or nested array reads back as it was, unless it contains U+007F |
| Manifest.LineReads | src/feature_rl/environments/cargo_manifest.py:42-51 | a printed line reads back as its header or assignment, unless it contains U+007F |
| Manifest.BodyMakes | src/feature_rl/environments/cargo_manifest.py:45-54 | reading the statements of a table fills in exactly that table at its path, through nested tables and arrays of tables |
| Manifest.BodyStatements | src/feature_rl/environments/cargo_manifest.py:45-54 | every string and key of a table appears in its statements, and nothing but its path is added |
| Manifest.RoundTrip | src/feature_rl/environments/cargo_manifest.py:8-57 | the printed text of an acceptable table reads back as the table if and only if no string or key contains U+007F |
| Manifest.DeleteIsNotEscaped | src/feature_rl/environments/cargo_manifest.py:23-24 | a one-entry manifest that is accepted but is not TOML |
| Manifest.DocumentBytes | src/feature_rl/environments/cargo_manifest.py:13-18 | the text is as long as its lines count for, except that no line at all gives one newline |
| Manifest.Printer.Emit | src/feature_rl/environments/cargo_manifest.py:13-18 | a line is added if and only if it still fits |
| Manifest.Printer.EmitPlain | src/feature_rl/environments/cargo_manifest.py:45-49 | emits the plain members in key order and puts the others aside in key order; fails exactly if one is unsupported or the bytes run out |
| Manifest.Printer.Open | src/feature_rl/environments/cargo_manifest.py:32-44 | the header is emitted exactly if depth, members and bytes allow |
| Manifest.Printer.VisitNested | src/feature_rl/environments/cargo_manifest.py:50-56 | prints all inner tables, or fails exactly if one is unacceptable or a limit is passed |
| Manifest.Printer.VisitMember | src/feature_rl/environments/cargo_manifest.py:50-56 | mixed arrays are refused, tables and arrays of tables printed in full |
| Manifest.Printer.VisitElements | src/feature_rl/environments/cargo_manifest.py:54-56 | prints every element of an array of tables, or fails exactly if one is unacceptable or a limit is passed |
| Manifest.Printer.VisitFrom | src/feature_rl/environments/cargo_manifest.py:54-56 | the rest of the iteration over an array of tables, from any element on |
| Manifest.Printer.Visit | src/feature_rl/environments/cargo_manifest.py:30-56 | prints a table if and only if it is acceptable and within the limits on depth, members and bytes |
| Manifest.Printer.VisitMembers | src/feature_rl/environments/cargo_manifest.py:45-56 | prints all members of a table, plain ones first, or fails exactly if one is unacceptable or a limit is passed |
| Manifest.CargoManifest | src/feature_rl/environments/cargo_manifest.py:8-57 | exactly the acceptable tables within all limits yield a text, of at most the allowed bytes, that reads back as the table unless it contains U+007F |
| Sampling.FindStratum | src/feature_rl/audits/selection.py:36-42 | finds the stratum of a unit if and only if exactly one matches |
| Sampling.Group | src/feature_rl/audits/selection.py:34-43 | succeeds exactly if every unit has one stratum, and then the groups are the strata's members |
| Sampling.Derive | src/feature_rl/audits/selection.py:26-70 | a manifest exists exactly when the plan names this frame, every unit has one stratum, no stratum is too small, and accepted, rejected and source units are selected; it is the specified one, drawn from the groups |
| Sampling.Validate | src/feature_rl/audits/selection.py:73-83 | a manifest is accepted exactly if deriving it again gives it |
| Sampling.AcceptedIsRepresentative | src/feature_rl/audits/selection.py:73-83 | whoever wrote an accepted manifest, it holds distinct units of the frame in the order of the plan's strata, with positive probabilities whose inverses add up to the population, and no other is accepted |
| Sampling.StrataPartition | src/feature_rl/audits/selection.py:34-43 | the strata partition the population: every quantity adds up over them |
| Sampling.SelectedProbability | src/feature_rl/audits/selection.py:56-66 | recorded probabilities are positive and at most one |
| Sampling.WeightedTotalIsExact | src/feature_rl/audits/selection.py:44-66 | the weighted total of the sample is the population's total for every quantity constant on each stratum not drawn whole |
| Sampling.WeightsAddUp | src/feature_rl/audits/selection.py:56-66 | the inverse probabilities of the selected units add up to the population size |
| Sampling.DrawnAreLowest | src/feature_rl/audits/selection.py:44-57 | exactly the planned number of different members of a stratum, and none left out ranks before one drawn |
| Sampling.SelectedAreApart | src/feature_rl/audits/models.py:112-130 | no unit is selected twice, so the manifest's check on its subjects never fails |
| Sampling.SelectionIgnoresOrder | src/feature_rl/audits/selection.py:44-66 | the selection does not depend on the order of the population |
| Intervals.CauchySchwarz | src/feature_rl/audits/statistics.py:43 | the squared sum of weights is at most the count times the sum of squares |
| Intervals.EffectiveSizeBounds | src/feature_rl/audits/statistics.py:43 | the effective sample size lies between one and the sample count |
| Intervals.WilsonBounds | src/feature_rl/audits/statistics.py:44-47 | before clamping the interval lies within zero and one and contains the estimate |
| Intervals.WilsonIsScoreInterval | src/feature_rl/audits/statistics.py:44-47 | the interval contains exactly the proportions that the score test at the effective size does not refute |
| Intervals.MetricIsCoherent | src/feature_rl/audits/statistics.py:25-53 | every metric passes its record's bounds check, states nothing without samples, and the clamps change nothing |
| Intervals.MetricInterval | src/feature_rl/audits/statistics.py:48-53 | the published bounds are those of the score test |
| Intervals.EstimateIsProportion | src/feature_rl/audits/statistics.py:29-42 | with the whole selection adjudicated, the weighted ratio is the population's proportion when each stratum is drawn whole or is homogeneous |
| Base64.DecodeEncode | src/feature_rl/artifacts/store.py:277-280 | decoding gives back what was encoded |
| Base64.EncodeShaped | src/feature_rl/artifacts/store.py:268-273 | the text of an encoding passes the shape checks |
| Base64.SizeIsExact | src/feature_rl/artifacts/store.py:274-276 | the size computed before decoding is the decoded size |
| Base64.CanonicalAreEncodings | src/feature_rl/artifacts/store.py:268-280 | a text is the encoding of some bytes exactly if its length, alphabet, padding and spare bits are right |
| Base64.DecodesExactly | src/feature_rl/artifacts/store.py:277-280 | shaped texts decode exactly if they are over the alphabet, and are written back exactly if they have no spare bits |
| Base64.ReadsCanonical | src/feature_rl/artifacts/store.py:266-283 | which payloads are read and which are called too large, told from the text alone |
| Base64.ReadsExactly | src/feature_rl/artifacts/store.py:266-283 | a payload is read as given bytes if and only if it is their encoding and they fit the cap |
| Codecs.EnvelopesAreLawful | src/feature_rl/artifacts/store.py:181-183 | an encoding of envelopes that reads back and a digest that tells all bytes apart |
| Store.RunKeepsSound | src/feature_rl/artifacts/store.py:176-210 | for any interleaving of writers and crashes, a linked name holds a complete closed file with that digest |
| Store.ObjectsNeverChange | src/feature_rl/artifacts/store.py:193-210 | what is linked is never changed or lost |
| Store.RefsIdentify | src/feature_rl/artifacts/store.py:176-191 | references are equal exactly for the same bytes and header |
| Store.StoredIsRead | src/feature_rl/artifacts/store.py:240-283 | stored bytes are read back whole whenever the caps allow, and the right cap is reported otherwise |
| Store.ReadWasStored | src/feature_rl/artifacts/store.py:240-283 | nothing is read but from an object with the digest and header of the reference, within the caps, and it is what anyone given this reference stored |
| Store.ArtifactStore.constructor | src/feature_rl/artifacts/store.py:113-119 | a new store is empty, and has a history on which everything required of a store holds |
| Store.ArtifactStore.WriteTemp | src/feature_rl/artifacts/store.py:190-197 | a normal end leaves a complete closed temporary file, whatever others do |
| Store.ArtifactStore.LinkTemp | src/feature_rl/artifacts/store.py:198-206 | the name ends up with this content; an existing object is never found to differ |
| Store.ArtifactStore.UnlinkTemp | src/feature_rl/artifacts/store.py:207-210 | removing the temporary entry leaves the object as it is |
| Store.ArtifactStore.PutBytes | src/feature_rl/artifacts/store.py:150-211 | a normal return means the bytes are stored under the reference that header and bytes determine |
| Store.ArtifactStore.ReadFile | src/feature_rl/artifacts/store.py:212-238 | chunked reading returns the whole file exactly if it is within the cap |
| Store.ArtifactStore.GetBytes | src/feature_rl/artifacts/store.py:240-283 | the result is that of the checks on what is stored at that moment, which includes all that was stored before |
| Episodes.AgentRunner.Act | src/feature_rl/agents/runner.py:295-336 | only a command that gets an answer goes on, and it uses one tool call |
| Episodes.AgentRunner.Sample | src/feature_rl/agents/runner.py:276-345 | one generation, whose tokens are counted within all budgets and recorded with a trace exactly if its probabilities are the policy's |
| Episodes.AgentRunner.TakeTurn | src/feature_rl/agents/runner.py:254-347 | the reason for stopping without sampling is the first exhausted limit; going on means one generation, one tool call and one recorded turn |
| Episodes.AgentRunner.TakeTurns | src/feature_rl/agents/runner.py:254-347 | the loop ends, with at most as many generations as tool calls and all budgets kept |
| Episodes.AgentRunner.GradeSaved | src/feature_rl/agents/runner.py:361-383 | at most three gradings, counted on from where a pass was interrupted, repeated only after an infrastructure outcome; a pending grade keeps its place |
| Episodes.AgentRunner.AfterSaved | src/feature_rl/agents/runner.py:349-391 | a grade comes from the closed source once it is submitted, or from the recovered grading; a submission that fails is kept for a retry |
| Episodes.AgentRunner.Freeze | src/feature_rl/agents/runner.py:392-422 | an outcome is published or kept for a retry; only a value error is raised, and then the job is as it was |
| Episodes.AgentRunner.FreezeMeasured | src/feature_rl/agents/runner.py:388-391 | a measured record that raises a value error is frozen again as invalid, and never replaces a durable one |
| Episodes.AgentRunner.Measure | src/feature_rl/agents/runner.py:349-391 | a frozen reward is that of a coherent grading of the submitted source |
| Episodes.AgentRunner.Conclude | src/feature_rl/agents/runner.py:240-347 | every way out, with a value error while freezing a measured record, freezes at most one honest record over the recorded turns |
| Episodes.AgentRunner.Publish | src/feature_rl/agents/runner.py:423-443 | publication never samples, never replaces a frozen record, and completes a job with it |
| Episodes.AgentRunner.Run | src/feature_rl/agents/runner.py:204-347 | a completed job gives back its record, a dispatched one must be recovered, and only a queued one samples; what is frozen is honest and within the budgets |
| Episodes.AgentRunner.Recover | src/feature_rl/agents/runner.py:445-454 | only a durable record is completed; without one the run must be reconciled, and nothing is sampled |
| Episodes.AgentRunner.RetryPublication | src/feature_rl/agents/runner.py:456-470 | each kind of pending publication resumes where it stopped, with its recovered grading, samples nothing, and never replaces a durable record |
| Study.Validate | src/feature_rl/evaluation/freeze.py:124-157 | accepts exactly the complete product of tasks, arms, seeds and episodes, with paired case seeds, comparisons of two arms, and for best-of-k no two rounds with one sampling seed |
| Study.SpreadIsCounted | src/feature_rl/evaluation/freeze.py:139-148 | counting the different seeds of the rounds finds a collision exactly if there is one |
| Study.UnitsAreComplete | src/feature_rl/evaluation/freeze.py:124-136 | every planned unit has exactly its episodes, all different, and no other unit has any |
| Study.CounterpartExists | src/feature_rl/evaluation/freeze.py:124-153 | every trial has exactly one counterpart in the other arm, with the same case and sampling seed |
| Study.SeedsAreSpread | src/feature_rl/evaluation/freeze.py:25-40 | within an arm, trials sample with one seed only in pass-at-1 studies under one policy seed |
| Study.Observe | src/feature_rl/evaluation/statistics.py:114-131 | receipts make a ledger exactly if there is one for each trial and each fits its assignment and the family of its task |
| Statistics.PercentilesAreOrdered | src/feature_rl/evaluation/statistics.py:41-46 | percentiles rise with the fraction |
| Statistics.PercentileIsWithin | src/feature_rl/evaluation/statistics.py:41-46 | a percentile lies between any bounds of the values |
| Statistics.ClusterInterval | src/feature_rl/evaluation/statistics.py:49-64 | none with fewer than two families, and else the 2.5th and 97.5th percentile of the means of the families that the generator draws, weighted as asked for |
| Statistics.IntervalIsOrdered | src/feature_rl/evaluation/statistics.py:49-64 | for any generator and either weighting that interval is ordered and within any bounds of the values |
| Statistics.GroupingKeepsAll | src/feature_rl/evaluation/statistics.py:67-78 | grouping by family loses no value and no weight, in whatever order the families are read |
| Statistics.BalancedWeightsAgree | src/feature_rl/evaluation/statistics.py:83 | task-weighted and family-weighted estimates agree when all families have as many values |
| Statistics.Estimate | src/feature_rl/evaluation/statistics.py:67-95 | for either weighting a metric is never refused by its own bounds check: mean, bootstrap interval and size are those of its values, absent without values, and in range |
| Evaluation.GroupResults | src/feature_rl/evaluation/statistics.py:140-142 | the results of each unit in roster order, and the units in order of appearance |
| Evaluation.UnitValues | src/feature_rl/evaluation/statistics.py:143-150 | refused exactly if a unit lacks episodes; otherwise each unit has its value, and the same as valid value exactly if every episode was measured |
| Evaluation.Count | src/feature_rl/evaluation/statistics.py:151-158 | units are resolved, failed or invalid, each counted once; the valid values add up to the resolved ones |
| Evaluation.RatesAreCounts | src/feature_rl/evaluation/statistics.py:151-176 | rates as quotients of counts, with the exact condition on the values of the units |
| Evaluation.ArmGroups | src/feature_rl/evaluation/statistics.py:159-164 | the values of an arm by family, for both populations |
| Evaluation.PairGroups | src/feature_rl/evaluation/statistics.py:178-190 | the differences of a comparison by family, for both populations; refused exactly if the arms of a cell are of different families |
| Evaluation.PairedIsDifference | src/feature_rl/evaluation/statistics.py:178-190 | the mean difference over all cells is the difference of the arms' means |
| Evaluation.PublishedAgree | src/feature_rl/evaluation/statistics.py:165-208 | in every summary each task-weighted all-assigned comparison is the difference of the two published rates of its arms |
| Evaluation.PublishedRates | src/feature_rl/evaluation/statistics.py:143-176 | in every summary the valid-only rate is resolved by valid units, and the all-assigned rate is resolved by assigned units exactly if no unit has receipts of both a resolved and an unmeasured episode, and else greater |
| Evaluation.SingleEpisodeRates | src/feature_rl/evaluation/statistics.py:143-176 | with single episodes both published rates of an arm are quotients of its published counts |
| Evaluation.SmallStudyIsAccepted | src/feature_rl/evaluation/freeze.py:124-157 | a concrete accepted study of two episodes with complete receipts |
| Evaluation.SmallStudyDiffers | src/feature_rl/evaluation/statistics.py:143-176 | in that study every summary gives one arm the rate one, with one unit, which is not resolved |
| Evaluation.Summarize | src/feature_rl/evaluation/statistics.py:98-208 | refused exactly if the receipts are not those of the roster; otherwise no unit is short, no lookup fails, no arms disagree, and all metrics of both arms and all comparisons, in both weightings and populations, are those of their values with the intervals of their own seeds, and pass their bounds checks |

## Left out

- Deadlines, CPU and wall clocks: a deadline only raises; in the episode it is an answer of the environment at the start and in the middle of a turn.
- Transport, HTTP and the registry protocol: a page is a list of records that may be unreachable, absent or unreadable, a wheel the outcome of fetching and inspecting a file.
- Parsing of requirements, versions, markers, wheels, archives and JSON: they are functions of their text.
- Catalog.RegistryCatalog.Options: the wheels of a page are acquired together instead of one at a time as the search consumes them, so the wheels that were acquired before a search ended are not told apart from later ones; what the search sees, up to the first file that raises, is the same.
- Catalog.RegistryCatalog.Options: the check that every requirement has the name asked for is not repeated, since the solver only groups requirements under their own names.
- Lock.RequestCache.CandidateDependencies: a candidate's runtime profile is a function of the candidate and its wheels, and the repository policy and the inference of metadata, which come before the checks on declarations, are not modelled.
- Recipes.ValidateRecipe: checks of a recipe that do not concern its dependencies (resource limits, setup commands, services, neutral repairs) are not modelled, and the list of requirements in the supply is left implicit.
- Lock.ReadLock: a frozen wheel carries what its inspection found instead of being opened again, since opening is a function of the retained bytes.
- Losses of storage other than unsynced bytes at the end of the event log, and waiting for another connection to the database.
- Outbox.Probe.ObserveWork: the measurement is any text given by the caller, since it is a clock reading.
- Container options and the monitoring of commands: their outcome is one accept or raise.
- Sessions.DockerSession.Admit: the owner token and the container identifier are represented by the operation they belong to, and the image and settings checks by one answer.
- Sessions.EnvironmentRuntime.Execute: the steps of the work in the container answer as they like; what they cost is left out, and sources are compared by one digest.
- A change of the daemon between the identity check and the last inspection of one cleanup.
- Numbers in manifests: a finite float is the text Python prints for it, and integers beyond 64 bits, which a TOML reader may refuse, are read as they are.
- Lone surrogate code points, which cannot be encoded in UTF-8, and keys that are not strings.
- Artifact visibility and roles, typed artifacts, directory walking and symbolic links.
- Sampling.Derive: the digest that ranks subjects is any function; order independence asks that it separate them.
- Intervals.MetricIsCoherent: rounding of floating point is not modelled, so the clamps are shown unnecessary for exact numbers only.
- Accounting of audits beyond the weighted metrics, and quarantine.
- Costs, evidence receipts and message contents of an episode; its records are compared by what the rollout contract reads.
- Statistics.ClusterInterval: the random generator is any function of seed, resample and position.
- Evaluation.Summarize: names, methods and limitation texts of the metrics are represented by the rate they name, and cells are visited in any order instead of sorted.
- Lineage checks, arm protocols and shared budgets of a preregistration.
- Toolchain recognition, wheel internals, command runtimes, image building, signatures, providers and the command line.
