/** Optional values, used wherever the source has a null, a failed lookup or an error flag. */
module Wrappers {
  datatype Option<+T> = None | Some(value: T)
}

/** Octets, the element type of the buffers the assigner prints and reads. */
module Bytes {
  /** An unsigned 8-bit value (`std::uint8_t`, or a `char` read from a file). */
  newtype byte = b: int | 0 <= b < 256
}

/** Small arithmetic helpers shared by the modules. */
module Numbers {
  function Min(a: nat, b: nat): (m: nat)
    ensures m <= a && m <= b && (m == a || m == b)
  {
    if a < b then a else b
  }
}
