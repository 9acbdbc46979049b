/** Connection identifiers: one drawn 16-bit value becomes the pair of
    consecutive identifiers a connection uses (receive id, send id). */
module Util {
  import opened Types

  /** `generate_sequential_identifiers`, with the randomly drawn `id` as a
      parameter: `(id, id + 1)` when `id + 1` fits in 16 bits, else
      `(id - 1, id)`. */
  function SequentialIdentifiers(id: uint16): (ids: (uint16, uint16))
    ensures ids.1 == ids.0 + 1
    ensures id == ids.0 || id == ids.1
    ensures id < 0xFFFF ==> ids == (id, id + 1)
    ensures id == 0xFFFF ==> ids == (0xFFFE, 0xFFFF)
  {
    if id + 1 < U16_MODULUS then (id, id + 1) else (id - 1, id)
  }

}
