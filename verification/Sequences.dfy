/** Sequences of sequences. */
module Sequences {

  /** The parts one after another. */
  ghost function Flatten<T>(parts: seq<seq<T>>): seq<T> {
    if parts == [] then [] else parts[0] + Flatten(parts[1..])
  }
}
