/** Modifier masks are bytes: bit vectors in events, numbers in flash. */
module Masks {

  /** A byte read as a modifier mask is the byte written. */
  lemma ByteBack(x: nat)
    requires x < 0x100
    ensures ((x as bv8) as int) == x
  {
  }
}
