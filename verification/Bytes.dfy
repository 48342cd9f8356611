/** Bytes and their numeric values. */
module Bytes {
  type byte = bv8

  lemma ByteValue(n: nat)
    requires n < 256
    ensures (n as byte) as int == n
  {
  }

  lemma ByteRoundTrip(b: byte)
    ensures (b as int) as byte == b
  {
  }
}
