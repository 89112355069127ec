/**
 * Raw CAN frames and the C integer conversions the node relies on.
 *
 * The CAN_FRAME type belongs to the CAN driver library; only the fields the
 * node reads or writes are modelled: an identifier, a length and eight
 * payload bytes.
 */
module CanFrames {

  /** One payload byte (uint8_t). */
  type Byte = bv8

  /** uint16_t, the width of an SDO object-dictionary index. */
  type Uint16 = bv16

  /** uint32_t, the width of a frame identifier and of millis(). */
  type Uint32 = x: int | 0 <= x < 0x1_0000_0000

  /** The eight data bytes every CAN frame carries, whatever its length says. */
  type Payload = s: seq<Byte> | |s| == 8 witness [0, 0, 0, 0, 0, 0, 0, 0]

  datatype CanFrame = CanFrame(id: Uint32, length: nat, data: Payload)

  /** C's conversion of an int to uint32_t: reduction modulo 2^32. */
  function ToUint32(x: int): (r: Uint32)
    ensures (x - r) % 0x1_0000_0000 == 0
    ensures 0 <= x < 0x1_0000_0000 ==> r == x
  {
    x % 0x1_0000_0000
  }

  /** `n & 0x7F` on a two's-complement int: the low seven bits, always 0..127. */
  function Mask7(n: int): (r: int)
    ensures 0 <= r < 0x80
    ensures (n - r) % 0x80 == 0
    ensures 0 <= n < 0x80 ==> r == n
  {
    n % 0x80
  }

  /** Unsigned 32-bit subtraction `a - b` as millis() arithmetic does it (wraps). */
  function Elapsed(earlier: Uint32, now: Uint32): (r: Uint32)
    ensures earlier <= now ==> r == now - earlier
    ensures now < earlier ==> r == now - earlier + 0x1_0000_0000
  {
    (now - earlier) % 0x1_0000_0000
  }

  /** The byte an int in 0..255 is stored as (C's assignment to a uint8_t); it keeps its value. */
  function ByteOf(x: int): (r: Byte)
    requires 0 <= x < 0x100
    ensures r as int == x
  {
    if x == 0 then 0 else ByteOf(x - 1) + 1
  }

  function Last<T>(s: seq<T>): T
    requires |s| > 0
  {
    s[|s| - 1]
  }

  /** `after` is `before` with exactly one more frame at its end. */
  predicate AppendedOne(before: seq<CanFrame>, after: seq<CanFrame>)
  {
    |after| == |before| + 1 && after[..|before|] == before
  }
}
