/** C integer types of a fixed width, and ints in memory on a little-endian machine. */
module CTypes {
  newtype int32 = x: int | -0x8000_0000 <= x < 0x8000_0000

  newtype uint32 = x: int | 0 <= x < 0x1_0000_0000

  newtype byte = x: int | 0 <= x < 0x100

  const INT_SIZE: nat := 4

  /** Conversion to unsigned, and back. */
  function Unsigned(x: int32): (u: uint32) {
    if x >= 0 then x as uint32 else (x as int + 0x1_0000_0000) as uint32
  }

  function Signed(u: uint32): (x: int32)
    ensures Unsigned(x) == u
  {
    if u < 0x8000_0000 then u as int32 else (u as int - 0x1_0000_0000) as int32
  }

  lemma SignedOfUnsigned(x: int32)
    ensures Signed(Unsigned(x)) == x
  {
  }

  /** An unsigned int in memory, least significant byte first. */
  function UintBytes(u: uint32): (b: seq<byte>)
    ensures |b| == INT_SIZE
  {
    var u0 := u as int;
    var u1 := u0 / 0x100;
    var u2 := u1 / 0x100;
    [(u0 % 0x100) as byte, (u1 % 0x100) as byte, (u2 % 0x100) as byte, (u2 / 0x100) as byte]
  }

  function LoadUint(b: seq<byte>): uint32
    requires |b| == INT_SIZE
  {
    (b[0] as int + 0x100 * (b[1] as int + 0x100 * (b[2] as int + 0x100 * b[3] as int))) as uint32
  }

  lemma LoadOfStored(u: uint32)
    ensures LoadUint(UintBytes(u)) == u
  {
    var u0 := u as int;
    var u1 := u0 / 0x100;
    var u2 := u1 / 0x100;
    assert u0 == 0x100 * u1 + u0 % 0x100 && u1 == 0x100 * u2 + u1 % 0x100;
    assert u2 == 0x100 * (u2 / 0x100) + u2 % 0x100;
  }

  function IntBytes(x: int32): (b: seq<byte>)
    ensures |b| == INT_SIZE
  {
    UintBytes(Unsigned(x))
  }

  lemma IntBytesInjective(x: int32, y: int32)
    requires IntBytes(x) == IntBytes(y)
    ensures x == y
  {
    LoadOfStored(Unsigned(x));
    LoadOfStored(Unsigned(y));
  }
}
