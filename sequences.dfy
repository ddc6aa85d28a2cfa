/** Identities of sequence concatenation, stated once over plain variables so that proofs
    about framing and dispatch can call them instead of re-deriving them in large contexts. */
module Sequences {

  /** The empty sequence is a unit of concatenation on both sides. */
  lemma SeqUnit<T>(x: seq<T>)
    ensures [] + x == x && x + [] == x
  {
  }

  /** Concatenation is associative. */
  lemma SeqAssoc<T>(x: seq<T>, y: seq<T>, z: seq<T>)
    ensures x + (y + z) == (x + y) + z
  {
  }
}
