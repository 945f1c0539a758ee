/** Bytes, widths and the size of a vector, as the whole engine uses them. */
module Machine {

  type Byte = b: int | 0 <= b < 256

  type Int64 = n: int | -0x8000_0000_0000_0000 <= n < 0x8000_0000_0000_0000

  predicate FitsInt64(n: int) {
    -0x8000_0000_0000_0000 <= n < 0x8000_0000_0000_0000
  }

  function Pow256(w: nat): (p: int)
    ensures p >= 1
  {
    if w == 0 then 1 else 256 * Pow256(w - 1)
  }

  /** The rows a vector holds, and the candidates a probe buffers. */
  const VECTOR_SIZE: nat := 1024
}
