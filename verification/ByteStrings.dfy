/** Octets, as files and channels carry them. */
module ByteStrings {
  newtype byte = n: int | 0 <= n < 256

  type Bytes = seq<byte>
}
