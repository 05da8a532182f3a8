/** Fixed-width integers in a byte buffer, most or least significant byte first. */
module Bytes {

  type Byte = bv8

  const BYTE: int := 0x100
  const WORD16: int := 0x1_0000
  const WORD32: int := 0x1_0000_0000

  datatype RangeError = OutOfRange

  /** The byte holding n, counted up to so that no width conversion is left to the solver. */
  function ToByte(n: int): (b: Byte)
    requires 0 <= n < 0x100
    ensures b as int == n
  {
    if n == 0 then 0
    else
      var previous := ToByte(n - 1);
      Successor(previous);
      previous + 1
  }

  lemma Successor(b: Byte)
    requires b < 0xff
    ensures (b + 1) as int == b as int + 1
  {
  }

  function BigEndian32(n: int): (bytes: seq<Byte>)
    requires 0 <= n < WORD32
    ensures |bytes| == 4 && FromBigEndian(bytes) == n
  {
    var upper := n / BYTE;
    var high := upper / BYTE;
    [ToByte(high / BYTE), ToByte(high % BYTE), ToByte(upper % BYTE), ToByte(n % BYTE)]
  }

  function FromBigEndian(bytes: seq<Byte>): int
    requires |bytes| == 4
  {
    ((bytes[0] as int * BYTE + bytes[1] as int) * BYTE + bytes[2] as int) * BYTE + bytes[3] as int
  }

  function LittleEndian16(n: int): (bytes: seq<Byte>)
    requires 0 <= n < WORD16
    ensures |bytes| == 2 && FromLittleEndian(bytes) == n
  {
    var bytes := [ToByte(n % BYTE), ToByte(n / BYTE)];
    assert FromLittleEndian(bytes[1..]) == n / BYTE;
    bytes
  }

  function LittleEndian32(n: int): (bytes: seq<Byte>)
    requires 0 <= n < WORD32
    ensures |bytes| == 4 && FromLittleEndian(bytes) == n
  {
    var upper := n / BYTE;
    var high := upper / BYTE;
    var bytes := [ToByte(n % BYTE), ToByte(upper % BYTE), ToByte(high % BYTE), ToByte(high / BYTE)];
    assert FromLittleEndian(bytes[3..]) == high / BYTE;
    assert FromLittleEndian(bytes[2..]) == high;
    assert FromLittleEndian(bytes[1..]) == upper;
    bytes
  }

  function FromLittleEndian(bytes: seq<Byte>): int {
    if bytes == [] then 0 else bytes[0] as int + BYTE * FromLittleEndian(bytes[1..])
  }

  /** The most significant byte comes first in one order and last in the other. */
  lemma ByteOrder(bytes: seq<Byte>)
    requires |bytes| == 4
    ensures FromBigEndian(bytes)
         == bytes[0] as int * 0x100_0000 + bytes[1] as int * 0x1_0000 + bytes[2] as int * 0x100 + bytes[3] as int
    ensures FromLittleEndian(bytes)
         == bytes[3] as int * 0x100_0000 + bytes[2] as int * 0x1_0000 + bytes[1] as int * 0x100 + bytes[0] as int
    ensures FromLittleEndian(bytes[..2]) == bytes[1] as int * 0x100 + bytes[0] as int
  {
    LittleEndianUnfolds(bytes);
    LittleEndianUnfolds(bytes[1..]);
    LittleEndianUnfolds(bytes[2..]);
    LittleEndianUnfolds(bytes[3..]);
    LittleEndianUnfolds(bytes[..2]);
    LittleEndianUnfolds(bytes[..2][1..]);
    hide FromLittleEndian;
    assert bytes[1..][1..] == bytes[2..] && bytes[2..][1..] == bytes[3..] && bytes[3..][1..] == [];
    assert bytes[..2][1..][1..] == [];
    LittleEndianOfNone();
  }

  lemma LittleEndianUnfolds(bytes: seq<Byte>)
    requires bytes != []
    ensures FromLittleEndian(bytes) == bytes[0] as int + 0x100 * FromLittleEndian(bytes[1..])
  {
  }

  lemma LittleEndianOfNone()
    ensures FromLittleEndian([]) == 0
  {
  }
}
