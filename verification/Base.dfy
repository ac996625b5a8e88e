/** What every module shares: optional values, bytes and 16-byte identities. */
module Base {

  datatype Option<+T> = None | Some(value: T)

  type byte = x: int | 0 <= x < 256

  type Bytes = seq<byte>

  /** A table, column, key or cluster identity. */
  type Id16 = b: Bytes | |b| == 16 witness seq(16, _ => 0)

  const TWO_32: nat := 0x1_0000_0000

  const TWO_64: nat := 0x1_0000_0000_0000_0000
}
