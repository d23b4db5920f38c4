/** Small shared vocabulary: an optional value (a C pointer that may be NULL),
    bytes, and the machine-word bounds the modules use. */
module Common {

  /** A value that may be absent, as a C pointer that may be NULL. */
  datatype Option<T> = None | Some(value: T)

  /** An unsigned 8-bit value (uint8_t) used as data rather than as a bit pattern. */
  newtype byte = x: int | 0 <= x < 0x100

  const TWO_8: int := 0x100
  const TWO_16: int := 0x1_0000
  const TWO_24: int := 0x100_0000
  const TWO_32: int := 0x1_0000_0000
  const TWO_64: int := 0x1_0000_0000_0000_0000

  function Min(a: int, b: int): int { if a <= b then a else b }

  /** Concatenation regroups: the step the proofs of traces built piece by
      piece take at each piece. */
  lemma AppendAssoc<T>(a: seq<T>, b: seq<T>, c: seq<T>)
    ensures a + b + c == a + (b + c)
  {
  }
}
