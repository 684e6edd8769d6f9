/**
 Declarations of one candidate: requirements, wheels, and what the dependency
 solver reads from the frozen runtime profile and policy.  A `Problem` holds the
 declarations as submitted; a `Query` is what is left of it once every
 requirement is replaced by its canonical key, which is what the dependency
 request identity hashes.
 */
module Requirements {
  import opened Text

  datatype Clause = Clause(operator: string, version: string)

  /** A parsed requirement; an empty marker text stands for "no marker". */
  datatype Requirement = Requirement(name: string, extras: set<string>, specifier: set<Clause>, marker: string)

  /** The canonical form of a requirement (`_requirement_key`). */
  datatype Key = Key(name: string, extras: set<string>, specifier: set<Clause>, marker: string)

  datatype Verdict = Applies | Skipped | Unevaluable

  /** The parts of the `packaging` library the solver relies on, for one marker environment. */
  datatype Packaging = Packaging(
    canonicalizeName: string -> string,
    canonicalizeClause: Clause -> Clause,
    contains: (Clause, string) -> bool,
    prerelease: Clause -> bool,
    evaluate: (string, string) -> Verdict,
    safe: Requirement -> bool)

  /** A wheel after inspection, with what its pin says; `artifact` identifies its retained bytes. */
  datatype Wheel = Wheel(
    name: string, version: string, filename: string, sha256: string, artifact: string,
    tags: set<string>, requiresPython: set<Clause>, requirements: seq<Requirement>,
    extras: set<string>, size: nat, expandedSize: nat)

  datatype Pin = Pin(name: string, version: string, sha256: string)

  /** Everything `_solve` is given besides the provider of wheels. */
  datatype Problem = Problem(
    pkg: Packaging, roots: seq<Requirement>, constraints: seq<Requirement>,
    hashes: map<string, set<string>>, allowed: Option<set<string>>, tags: set<string>,
    interpreter: string, forbidden: bool, baseline: seq<Pin>, maxBytes: nat, maxDisk: nat)

  datatype Query = Query(
    pkg: Packaging, roots: set<Key>, constraints: set<Key>,
    hashes: map<string, set<string>>, allowed: Option<set<string>>, tags: set<string>,
    interpreter: string, forbidden: bool, pins: map<string, Pin>, maxBytes: nat, maxDisk: nat)

  function KeyOf(pkg: Packaging, r: Requirement): Key {
    Key(pkg.canonicalizeName(r.name),
        set e <- r.extras :: pkg.canonicalizeName(e),
        set c <- r.specifier :: pkg.canonicalizeClause(c),
        r.marker)
  }

  function KeysOf(pkg: Packaging, rs: seq<Requirement>): set<Key> {
    set r <- rs :: KeyOf(pkg, r)
  }

  /** Canonicalising a version clause changes neither which versions it matches nor its prerelease flag. */
  ghost predicate ClausesKeepMeaning(pkg: Packaging) {
    forall c :: (forall v :: pkg.contains(pkg.canonicalizeClause(c), v) == pkg.contains(c, v)) &&
                pkg.prerelease(pkg.canonicalizeClause(c)) == pkg.prerelease(c)
  }

  predicate Matches(pkg: Packaging, specifier: set<Clause>, version: string) {
    forall c <- specifier :: pkg.contains(c, version)
  }

  predicate MatchesAll(pkg: Packaging, version: string, requirements: seq<Requirement>) {
    forall r <- requirements :: Matches(pkg, r.specifier, version)
  }

  predicate Prereleases(pkg: Packaging, specifier: set<Clause>) {
    exists c <- specifier :: pkg.prerelease(c)
  }

  /** The verdict of a marker under one requested extra. */
  function MarkerVerdict(pkg: Packaging, marker: string, extra: string): Verdict {
    if marker == "" then Applies else pkg.evaluate(marker, extra)
  }

  /** A requirement and its key match the same versions and agree on prereleases. */
  lemma KeyMeaning(pkg: Packaging, r: Requirement, version: string)
    requires ClausesKeepMeaning(pkg)
    ensures Matches(pkg, KeyOf(pkg, r).specifier, version) == Matches(pkg, r.specifier, version)
    ensures Prereleases(pkg, KeyOf(pkg, r).specifier) == Prereleases(pkg, r.specifier)
  {
    forall c <- r.specifier
      ensures pkg.canonicalizeClause(c) in KeyOf(pkg, r).specifier
    {}
  }

  /** The first pin of a name. */
  function FirstPin(pkg: Packaging, pins: seq<Pin>, name: string): Option<Pin> {
    if pins == [] then None
    else if pkg.canonicalizeName(pins[0].name) == name then Some(pins[0])
    else FirstPin(pkg, pins[1..], name)
  }

  /** A pin under the canonical spelling of its name. */
  function CanonicalPin(pkg: Packaging, pin: Pin): Pin {
    pin.(name := pkg.canonicalizeName(pin.name))
  }

  /** The first pin of every name that has one. */
  function FirstPins(pkg: Packaging, pins: seq<Pin>): map<string, Pin> {
    if pins == [] then map[]
    else FirstPins(pkg, pins[1..])[pkg.canonicalizeName(pins[0].name) := CanonicalPin(pkg, pins[0])]
  }

  lemma {:induction false} FirstPinsHold(pkg: Packaging, pins: seq<Pin>, name: string)
    ensures FirstPin(pkg, pins, name).Some? <==> name in FirstPins(pkg, pins)
    ensures name in FirstPins(pkg, pins) ==>
              CanonicalPin(pkg, FirstPin(pkg, pins, name).value) == FirstPins(pkg, pins)[name]
  {
    if pins == [] {
      assert FirstPins(pkg, pins) == map[];
    } else {
      FirstPinsHold(pkg, pins[1..], name);
    }
  }

  /** The canonical form of a problem: order, duplicates and spelling of declarations are gone. */
  ghost function Canonical(p: Problem): Query {
    Query(p.pkg, KeysOf(p.pkg, p.roots), KeysOf(p.pkg, p.constraints), p.hashes, p.allowed, p.tags,
          p.interpreter, p.forbidden, if p.forbidden then FirstPins(p.pkg, p.baseline) else map[],
          p.maxBytes, p.maxDisk)
  }
}
