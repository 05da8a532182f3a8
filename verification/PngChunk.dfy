/**
  * PNG chunks and their checksum: `chunk` of apps/agen/scripts/seed-instant.ts.
  *
  * The table-driven checksum is proved against the cyclic redundancy check PNG defines
  * (section 3.4 of RFC 2083), which shifts the register one data bit at a time.
  */
module PngChunk {
  import opened Basics
  import opened Bytes

  const POLYNOMIAL: bv32 := 0xedb88320

  /** Named so that proofs by induction need not look at bits. */
  function Xor(x: bv32, y: bv32): bv32 { x ^ y }

  function Odd(x: bv32): bool { x & 1 == 1 }

  function Half(x: bv32): bv32 { x >> 1 }

  function LowByte(x: bv32): bv32 { x & 0xff }

  function HighBytes(x: bv32): bv32 { x & 0xffffff00 }

  function DropByte(x: bv32): bv32 { x >> 8 }

  function Widen(b: Byte): bv32 { b as bv32 }

  // ----- the definition, one bit at a time ------------------------------------------

  /** The register after one data bit, the lowest of `data`. */
  function ShiftBit(crc: bv32, data: bv32): bv32 {
    if Odd(crc) != Odd(data) then Xor(POLYNOMIAL, Half(crc)) else Half(crc)
  }

  /** The register after the n low bits of `data`, least significant first. */
  function ShiftBits(crc: bv32, data: bv32, n: nat): bv32
    decreases n
  {
    if n == 0 then crc else ShiftBits(ShiftBit(crc, data), Half(data), n - 1)
  }

  function ShiftBytes(crc: bv32, bytes: seq<Byte>): bv32
    decreases |bytes|
  {
    if bytes == [] then crc
    else ShiftBits(ShiftBytes(crc, bytes[..|bytes| - 1]), Widen(bytes[|bytes| - 1]), 8)
  }

  /** The checksum: register preset to ones, one's complement at the end. */
  function Crc32(bytes: seq<Byte>): bv32 {
    Xor(ShiftBytes(0xffffffff, bytes), 0xffffffff)
  }

  // ----- what one table entry holds ------------------------------------------------------

  function Halve(value: bv32): bv32 {
    if Odd(value) then Xor(POLYNOMIAL, Half(value)) else Half(value)
  }

  function HalveTimes(value: bv32, n: nat): bv32
    decreases n
  {
    if n == 0 then value else HalveTimes(Halve(value), n - 1)
  }

  function HalfTimes(value: bv32, n: nat): bv32
    decreases n
  {
    if n == 0 then value else HalfTimes(Half(value), n - 1)
  }

  lemma XorBits(x: bv32, y: bv32)
    ensures Half(Xor(x, y)) == Xor(Half(x), Half(y))
    ensures Odd(Xor(x, y)) == (Odd(x) != Odd(y))
  {
  }

  lemma XorLaws(p: bv32, x: bv32, y: bv32)
    ensures Xor(Xor(p, x), y) == Xor(p, Xor(x, y))
    ensures Xor(x, Xor(p, y)) == Xor(p, Xor(x, y))
    ensures Xor(Xor(p, x), Xor(p, y)) == Xor(x, y)
  {
    Associative(p, x, y);
    Associative(p, y, x);
    Commutative(x, y);
    Commutative(x, Xor(p, y));
    Cancels(p, x, y);
  }

  lemma Associative(x: bv32, y: bv32, z: bv32)
    ensures Xor(Xor(x, y), z) == Xor(x, Xor(y, z))
  {
  }

  lemma Commutative(x: bv32, y: bv32)
    ensures Xor(x, y) == Xor(y, x)
  {
  }

  lemma Cancels(p: bv32, x: bv32, y: bv32)
    ensures Xor(Xor(p, x), Xor(p, y)) == Xor(x, y)
  {
    Zero(p);
    Zero(y);
    hide Xor;
    Commutative(p, x);
    Associative(x, p, Xor(p, y));
    Associative(p, p, y);
  }

  lemma Zero(x: bv32)
    ensures Xor(x, x) == 0 && Xor(0, x) == x && Xor(x, 0) == x
  {
  }

  lemma HalveIsLinear(x: bv32, y: bv32)
    ensures Halve(Xor(x, y)) == Xor(Halve(x), Halve(y))
  {
    hide Xor, Odd, Half;
    XorBits(x, y);
    XorLaws(POLYNOMIAL, Half(x), Half(y));
  }

  /** The eight-step shift distributes over exclusive or. */
  lemma {:induction false} HalvingIsLinear(x: bv32, y: bv32, n: nat)
    ensures HalveTimes(Xor(x, y), n) == Xor(HalveTimes(x, n), HalveTimes(y, n))
    decreases n
  {
    hide Xor, Halve;
    if n > 0 {
      HalveIsLinear(x, y);
      HalvingIsLinear(Halve(x), Halve(y), n - 1);
    }
  }

  predicate LowBitsClear(x: bv32, n: nat)
    decreases n
  {
    n == 0 || (!Odd(x) && LowBitsClear(Half(x), n - 1))
  }

  /** Clear bits feed nothing back, so halving them is only shifting. */
  lemma {:induction false} HalvingClearBits(x: bv32, n: nat)
    requires LowBitsClear(x, n)
    ensures HalveTimes(x, n) == HalfTimes(x, n)
    decreases n
  {
    hide Xor, Odd, Half;
    if n > 0 {
      HalvingClearBits(Half(x), n - 1);
    }
  }

  /** Feeding data bits in is halving the register they were folded into. */
  lemma {:induction false} ShiftingIsHalving(crc: bv32, data: bv32, n: nat)
    ensures HalveTimes(Xor(crc, data), n) == Xor(ShiftBits(crc, data, n), HalfTimes(data, n))
    decreases n
  {
    hide Xor, Odd, Half;
    if n > 0 {
      XorBits(crc, data);
      XorLaws(POLYNOMIAL, Half(crc), Half(data));
      ShiftingIsHalving(ShiftBit(crc, data), Half(data), n - 1);
    }
  }

  lemma EightHalves(x: bv32)
    ensures HalfTimes(x, 8) == DropByte(x)
    ensures LowByte(x) == 0 ==> LowBitsClear(x, 8)
  {
    var b := Half(Half(x));
    var d := Half(Half(b));
    var f := Half(Half(d));
    var h := Half(Half(f));
    HalfBits(x, b, d, f, h);
    hide Half, Odd, LowByte, DropByte;
    assert HalfTimes(x, 8) == HalfTimes(b, 6);
    assert HalfTimes(b, 6) == HalfTimes(d, 4);
    assert HalfTimes(d, 4) == HalfTimes(f, 2);
    if LowByte(x) == 0 {
      assert LowBitsClear(f, 2);
      assert LowBitsClear(d, 4);
      assert LowBitsClear(b, 6);
    }
  }

  lemma HalfBits(x: bv32, b: bv32, d: bv32, f: bv32, h: bv32)
    requires b == Half(Half(x)) && d == Half(Half(b)) && f == Half(Half(d)) && h == Half(Half(f))
    ensures h == DropByte(x)
    ensures LowByte(x) == 0 ==>
              && !Odd(x) && !Odd(Half(x)) && !Odd(b) && !Odd(Half(b))
              && !Odd(d) && !Odd(Half(d)) && !Odd(f) && !Odd(Half(f))
  {
  }

  lemma HighAndLow(x: bv32)
    ensures x == Xor(LowByte(x), HighBytes(x))
    ensures LowByte(HighBytes(x)) == 0 && DropByte(HighBytes(x)) == DropByte(x)
  {
  }

  lemma ByteIsLow(crc: bv32, b: Byte)
    ensures DropByte(Widen(b)) == 0 && DropByte(Xor(crc, Widen(b))) == DropByte(crc)
  {
  }

  lemma IndexRoundTrip(x: bv32)
    ensures 0 <= LowByte(x) as int < 256 && (LowByte(x) as int) as bv32 == LowByte(x)
  {
  }

  // ----- the table ----------------------------------------------------------------------

  /** The table the source builds: entry i is i shifted eight times. */
  method BuildTable() returns (table: seq<bv32>)
    ensures |table| == 256 && IsTable(table)
  {
    hide HalveTimes, Xor, Odd, Half;
    table := [];
    for index := 0 to 256
      invariant |table| == index
      invariant forall i | 0 <= i < index :: table[i] == HalveTimes(i as bv32, 8)
    {
      var value := index as bv32;
      for bit := 0 to 8
        invariant HalveTimes(index as bv32, 8) == HalveTimes(value, 8 - bit)
      {
        HalveOnce(value, 8 - bit);
        value := if value & 1 == 1 then POLYNOMIAL ^ (value >> 1) else value >> 1;
      }
      HalveNone(value);
      table := table + [value];
    }
  }

  lemma HalveOnce(value: bv32, n: nat)
    requires n > 0
    ensures HalveTimes(value, n)
         == HalveTimes(if value & 1 == 1 then POLYNOMIAL ^ (value >> 1) else value >> 1, n - 1)
  {
  }

  lemma HalveNone(value: bv32)
    ensures HalveTimes(value, 0) == value
  {
  }

  /** One table step is eight steps of the definition. */
  lemma TableStep(crc: bv32, byte: Byte)
    ensures Xor(HalveTimes(LowByte(Xor(crc, Widen(byte))), 8), DropByte(crc)) == ShiftBits(crc, Widen(byte), 8)
  {
    hide Xor, Odd, Half, HalveTimes, HalfTimes, ShiftBits, LowBitsClear, LowByte, HighBytes, DropByte, Widen;
    var data := Widen(byte);
    var x := Xor(crc, data);
    HighAndLow(x);
    ByteIsLow(crc, byte);
    EightHalves(HighBytes(x));
    EightHalves(data);
    Zero(ShiftBits(crc, data, 8));
    ShiftingIsHalving(crc, data, 8);
    HalvingIsLinear(LowByte(x), HighBytes(x), 8);
    HalvingClearBits(HighBytes(x), 8);
  }

  ghost predicate IsTable(table: seq<bv32>) {
    |table| == 256 && forall i | 0 <= i < 256 :: table[i] == HalveTimes(i as bv32, 8)
  }

  /** The table entry a byte selects. */
  function Index(crc: bv32, byte: Byte): (i: int)
    ensures 0 <= i < 256
  {
    IndexRoundTrip(Xor(crc, Widen(byte)));
    LowByte(Xor(crc, Widen(byte))) as int
  }

  /** The register after one byte, through the table. */
  function NextCrc(table: seq<bv32>, crc: bv32, byte: Byte): bv32
    requires |table| == 256
  {
    Xor(table[Index(crc, byte)], DropByte(crc))
  }

  lemma NextCrcLooksUp(table: seq<bv32>, crc: bv32, byte: Byte)
    requires IsTable(table)
    ensures NextCrc(table, crc, byte)
         == Xor(HalveTimes(LowByte(Xor(crc, Widen(byte))), 8), DropByte(crc))
  {
    hide HalveTimes, Xor, LowByte, DropByte, Widen;
    IndexRoundTrip(Xor(crc, Widen(byte)));
  }

  lemma ShiftOneMore(bytes: seq<Byte>, i: nat)
    requires i < |bytes|
    ensures ShiftBytes(0xffffffff, bytes[..i + 1])
         == ShiftBits(ShiftBytes(0xffffffff, bytes[..i]), Widen(bytes[i]), 8)
  {
    assert bytes[..i + 1][..i] == bytes[..i];
  }

  /** The checksum as the source computes it, a table lookup per byte. */
  method TableCrc(bytes: seq<Byte>) returns (crc: bv32)
    ensures crc == Crc32(bytes)
  {
    hide HalveTimes, Xor, LowByte, DropByte, Widen, ShiftBits, ShiftBytes, NextCrc, IsTable;
    var table := BuildTable();
    crc := 0xffffffff;
    CrcStart(bytes);
    for i := 0 to |bytes|
      invariant crc == ShiftBytes(0xffffffff, bytes[..i])
    {
      NextCrcLooksUp(table, crc, bytes[i]);
      TableStep(crc, bytes[i]);
      ShiftOneMore(bytes, i);
      crc := NextCrc(table, crc, bytes[i]);
    }
    assert bytes[..|bytes|] == bytes;
    crc := Xor(crc, 0xffffffff);
  }

  lemma CrcStart(bytes: seq<Byte>)
    ensures ShiftBytes(0xffffffff, bytes[..0]) == 0xffffffff
  {
  }

  // ----- what the checksum is for ---------------------------------------------------------

  /** The polynomial's top bit records what was fed back, so no state is forgotten. */
  lemma HalveIsInjective(x: bv32, y: bv32)
    requires Halve(x) == Halve(y)
    ensures x == y
  {
  }

  lemma {:induction false} HalvingIsInjective(x: bv32, y: bv32, n: nat)
    requires HalveTimes(x, n) == HalveTimes(y, n)
    ensures x == y
    decreases n
  {
    hide Halve;
    if n > 0 {
      HalvingIsInjective(Halve(x), Halve(y), n - 1);
      HalveIsInjective(x, y);
    }
  }

  lemma ShiftByteIsHalving(crc: bv32, byte: Byte)
    ensures ShiftBits(crc, Widen(byte), 8) == HalveTimes(Xor(crc, Widen(byte)), 8)
  {
    hide Xor, HalveTimes, HalfTimes, ShiftBits, DropByte, Widen;
    ShiftingIsHalving(crc, Widen(byte), 8);
    EightHalves(Widen(byte));
    ByteIsLow(crc, byte);
    Zero(ShiftBits(crc, Widen(byte), 8));
  }

  lemma XorInjective(c: bv32, d: bv32, x: Byte, y: Byte)
    ensures Xor(c, Widen(x)) == Xor(d, Widen(x)) ==> c == d
    ensures Xor(c, Widen(x)) == Xor(c, Widen(y)) ==> x == y
  {
  }

  /** Different registers stay different however many bytes follow. */
  lemma {:induction false} ShiftingKeepsDifferences(a: seq<Byte>, b: seq<Byte>, rest: seq<Byte>)
    requires ShiftBytes(0xffffffff, a) != ShiftBytes(0xffffffff, b)
    ensures ShiftBytes(0xffffffff, a + rest) != ShiftBytes(0xffffffff, b + rest)
  {
    hide Xor, HalveTimes, ShiftBits, Widen;
    if rest == [] {
      assert a + rest == a && b + rest == b;
    } else {
      var front, last := rest[..|rest| - 1], rest[|rest| - 1];
      ShiftingKeepsDifferences(a, b, front);
      assert (a + rest)[..|a + rest| - 1] == a + front && (b + rest)[..|b + rest| - 1] == b + front;
      var c, d := ShiftBytes(0xffffffff, a + front), ShiftBytes(0xffffffff, b + front);
      ShiftByteIsHalving(c, last);
      ShiftByteIsHalving(d, last);
      if ShiftBits(c, Widen(last), 8) == ShiftBits(d, Widen(last), 8) {
        HalvingIsInjective(Xor(c, Widen(last)), Xor(d, Widen(last)), 8);
        XorInjective(c, d, last, last);
      }
    }
  }

  /** Changing any one byte of a message changes its checksum. */
  lemma OneByteChanged(before: seq<Byte>, x: Byte, y: Byte, after: seq<Byte>)
    requires x != y
    ensures Crc32(before + [x] + after) != Crc32(before + [y] + after)
  {
    hide Xor, HalveTimes, ShiftBits, Widen;
    var c := ShiftBytes(0xffffffff, before);
    assert (before + [x])[..|before|] == before && (before + [y])[..|before|] == before;
    ShiftByteIsHalving(c, x);
    ShiftByteIsHalving(c, y);
    if ShiftBits(c, Widen(x), 8) == ShiftBits(c, Widen(y), 8) {
      HalvingIsInjective(Xor(c, Widen(x)), Xor(c, Widen(y)), 8);
      XorInjective(c, c, x, y);
    }
    ShiftingKeepsDifferences(before + [x], before + [y], after);
    Complement(ShiftBytes(0xffffffff, before + [x] + after), ShiftBytes(0xffffffff, before + [y] + after));
  }

  lemma Complement(x: bv32, y: bv32)
    ensures x != y ==> Xor(x, 0xffffffff) != Xor(y, 0xffffffff)
  {
  }

  // ----- the chunk ------------------------------------------------------------------------

  datatype Chunk = Chunk(kind: seq<Byte>, body: seq<Byte>)

  function Encoded(chunk: Chunk): Result<seq<Byte>, RangeError> {
    if |chunk.body| >= WORD32 then Err(OutOfRange)
    else
      var typed := chunk.kind + chunk.body;
      Ok(BigEndian32(|chunk.body|) + typed + BigEndian32(Crc32(typed) as int))
  }

  /** Length, type, payload, checksum. */
  method WriteChunk(chunk: Chunk) returns (bytes: Result<seq<Byte>, RangeError>)
    ensures bytes == Encoded(chunk)
  {
    if |chunk.body| >= WORD32 { return Err(OutOfRange); }
    var length := BigEndian32(|chunk.body|);
    var typed := chunk.kind + chunk.body;
    var crc := TableCrc(typed);
    bytes := Ok(length + typed + BigEndian32(crc as int));
  }

  /** How a decoder reads one chunk off the front of a stream, refusing a bad checksum. */
  function Decoded(bytes: seq<Byte>): Result<(Chunk, seq<Byte>), RangeError> {
    if |bytes| < 12 then Err(OutOfRange)
    else
      var length := FromBigEndian(bytes[..4]);
      if length < 0 || |bytes| < 12 + length then Err(OutOfRange)
      else
        var typed := bytes[4..8 + length];
        if FromBigEndian(bytes[8 + length..12 + length]) != Crc32(typed) as int then Err(OutOfRange)
        else Ok((Chunk(typed[..4], typed[4..]), bytes[12 + length..]))
  }

  /** A decoder recovers the type and payload of every chunk written, and what follows it. */
  lemma ChunkRoundTrip(chunk: Chunk, rest: seq<Byte>)
    requires |chunk.kind| == 4
    ensures Encoded(chunk).Ok? <==> |chunk.body| < WORD32
    ensures Encoded(chunk).Ok? ==> Decoded(Encoded(chunk).value + rest) == Ok((chunk, rest))
  {
    hide Crc32, BigEndian32, FromBigEndian;
    if |chunk.body| < WORD32 {
      var length, typed := BigEndian32(|chunk.body|), chunk.kind + chunk.body;
      var crc := BigEndian32(Crc32(typed) as int);
      var bytes := Encoded(chunk).value + rest;
      assert bytes == length + typed + crc + rest;
      assert bytes[..4] == length;
      assert bytes[4..4 + |typed|] == typed;
      assert bytes[4 + |typed|..8 + |typed|] == crc;
      assert typed[..4] == chunk.kind && typed[4..] == chunk.body;
      assert bytes[8 + |typed|..] == rest;
    }
  }

  // ----- a published value ------------------------------------------------------------

  lemma {:induction false} ShiftOne(crc: bv32, before: seq<Byte>, byte: Byte, data: bv32)
    requires Widen(byte) == data
    ensures ShiftBytes(crc, before + [byte]) == ShiftBits(ShiftBytes(crc, before), data, 8)
  {
    assert (before + [byte])[..|before|] == before;
    hide ShiftBits, Widen;
  }

  lemma ClosingShifts()
    ensures ShiftBits(0xffffffff, 0x49, 8) == 0x22fde946
    ensures ShiftBits(0x22fde946, 0x45, 8) == 0x992bac53
    ensures ShiftBits(0x992bac53, 0x4e, 8) == 0x639f4775
    ensures ShiftBits(0x639f4775, 0x44, 8) == 0x51bd9f7d
  {
  }

  lemma ClosingBytes()
    ensures Widen(0x49) == 0x49 && Widen(0x45) == 0x45 && Widen(0x4e) == 0x4e && Widen(0x44) == 0x44
    ensures Xor(0x51bd9f7d, 0xffffffff) == 0xae426082
  {
  }

  /** Every PNG file ends in this checksum: that of the closing chunk's type, and nothing else. */
  lemma ClosingChecksum()
    ensures Crc32([0x49, 0x45, 0x4e, 0x44]) == 0xae426082
  {
    hide ShiftBits, Widen, Xor;
    ClosingShifts();
    ClosingBytes();
    ShiftOne(0xffffffff, [], 0x49, 0x49);
    ShiftOne(0xffffffff, [0x49], 0x45, 0x45);
    ShiftOne(0xffffffff, [0x49, 0x45], 0x4e, 0x4e);
    ShiftOne(0xffffffff, [0x49, 0x45, 0x4e], 0x44, 0x44);
    assert [] + [0x49 as Byte] == [0x49];
    assert [0x49 as Byte] + [0x45] == [0x49, 0x45];
    assert [0x49 as Byte, 0x45] + [0x4e] == [0x49, 0x45, 0x4e];
    assert [0x49 as Byte, 0x45, 0x4e] + [0x44] == [0x49, 0x45, 0x4e, 0x44];
  }
}
