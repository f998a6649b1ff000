/** Bytes, the storage-geometry constants of the kernel and small helpers
    shared by every other module. */
module Common {

  /** A `u8`. */
  type Byte = b: int | 0 <= b < 256

  datatype Option<+T> = None | Some(value: T)

  // Storage geometry the kernel instantiates its file system with.
  const BLOCK_SIZE: nat := 256
  const MAX_FILE_BLOCKS: nat := 64
  const MAX_FILE_BYTES: nat := MAX_FILE_BLOCKS * BLOCK_SIZE
  const MAX_FILES_STORED: nat := 30
  const MAX_FILENAME_BYTES: nat := 10

  /** Capacity of an editing buffer: one byte short of the largest file. */
  const PRACTICAL_FILE_BUFFER_SIZE: nat := MAX_FILE_BYTES - 1

  const NEWLINE: Byte := 10
  const SPACE: Byte := 32

  /** `c as u8`: keeps the low eight bits of the scalar value. */
  function CharToByte(c: char): (b: Byte)
    ensures c as int < 256 ==> b == c as int
    ensures (c as int - b) % 256 == 0
  {
    (c as int) % 256
  }

  function Min(a: nat, b: nat): (m: nat)
    ensures m <= a && m <= b && (m == a || m == b)
  {
    if a <= b then a else b
  }

  /** `n` copies of `b`, the value of `[b; n]`. */
  function Fill(b: Byte, n: nat): (r: seq<Byte>)
    ensures |r| == n
    ensures forall i :: 0 <= i < n ==> r[i] == b
  {
    seq(n, _ => b)
  }
}
