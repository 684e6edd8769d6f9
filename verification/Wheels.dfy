/** Retained wheels: their bytes, what these contain, and what inspecting them establishes. */
module Wheels {
  import opened Text
  import opened Requirements
  import opened Lines

  /** The distribution that a wheel's own metadata names: its canonical name, and its version as written. */
  datatype Distribution = Distribution(name: string, version: string)

  /** What a well-formed wheel under some file name holds. */
  datatype Contents = Contents(
    distribution: Distribution, tags: set<string>, requiresPython: set<Clause>, requirements: seq<Requirement>,
    extras: set<string>, expandedSize: nat)

  /** Retained bytes by reference, and what is computed from bytes. */
  datatype Retained = Retained(
    bytes: string -> Option<Bytes>, digest: Bytes -> string, distribution: Bytes -> Option<Distribution>,
    contents: (string, Bytes) -> Option<Contents>, release: string -> string)
}
