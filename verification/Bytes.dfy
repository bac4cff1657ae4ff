/** Octets, addresses and 32-bit words as the hardware and the firmware see them. */
module Bytes {

  type byte = b: int | 0 <= b < 256

  type Ip = a: seq<byte> | |a| == 4 witness [0, 0, 0, 0]
  type Mac = m: seq<byte> | |m| == 6 witness [0, 0, 0, 0, 0, 0]

  const TWO16 := 0x1_0000
  const TWO32 := 0x1_0000_0000

  /** A 32-bit word, least significant byte lane first. */
  datatype Word = Word(b0: byte, b1: byte, b2: byte, b3: byte)

  const SILENCE := Word(0, 0, 0, 0)

  /** Byte k of v, counted from the least significant end. */
  function ByteOf(v: nat, k: nat): byte
    requires k < 4
  {
    match k
    case 0 => v % 256
    case 1 => v / 256 % 256
    case 2 => v / 65536 % 256
    case 3 => v / 16777216 % 256
  }

  /** Network (big-endian) order. */
  function Be16(v: nat): (s: seq<byte>)
    ensures |s| == 2
  {
    [ByteOf(v, 1), ByteOf(v, 0)]
  }

  function Be32(v: nat): (s: seq<byte>)
    ensures |s| == 4
  {
    [ByteOf(v, 3), ByteOf(v, 2), ByteOf(v, 1), ByteOf(v, 0)]
  }

  function Rd16(hi: byte, lo: byte): nat {
    256 * hi + lo
  }

  function Rd32(b3: byte, b2: byte, b1: byte, b0: byte): nat {
    16777216 * b3 + 65536 * b2 + 256 * b1 + b0
  }
}
