/** Fixed-width integers and identifiers shared by the validator set and the
    timeout manager. Go's `uint32`/`uint64` become bounded subset types of
    `int`; `ids.ShortID` (20 bytes) and `ids.ID` (32 bytes) become byte
    sequences of exactly that length. */
module Ids {

  type byte = x: int | 0 <= x < 0x100
  type uint32 = x: int | 0 <= x < 0x1_0000_0000
  type uint64 = x: int | 0 <= x < 0x1_0000_0000_0000_0000

  const MaxUint64: nat := 0xFFFF_FFFF_FFFF_FFFF
  /** Go's `math.MaxInt64`. */
  const MaxInt64: nat := 0x7FFF_FFFF_FFFF_FFFF

  const ShortIDLen: nat := 20
  const IDLen: nat := 32

  /** A 20-byte identifier (a validator or node ID). */
  type ShortID = s: seq<byte> | |s| == ShortIDLen witness seq(20, _ => 0)

  /** A 32-byte identifier (a chain ID or a hash). */
  type ID = s: seq<byte> | |s| == IDLen witness seq(32, _ => 0)

  /** `ids.ShortEmpty`: the all-zero short ID. */
  const ShortEmpty: ShortID := seq(20, _ => 0)

  /** `ids.NewShortID([20]byte{b})`: first byte `b`, the rest zero. */
  function ShortIDWithFirstByte(b: byte): (id: ShortID)
    ensures id[0] == b && forall i :: 1 <= i < ShortIDLen ==> id[i] == 0
  {
    [b] + seq(19, _ => 0)
  }
}
