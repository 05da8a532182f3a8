/**
  * The icon container: `packIco` of apps/agen/scripts/prepare-brand.ts.
  *
  * A six-byte header, a sixteen-byte record per image, then the images' own bytes. The
  * packer is proved against the file layout, and the layout against a reader that follows
  * the directory the way an icon decoder does.
  */
module IcoPacker {
  import opened Basics
  import opened Bytes

  datatype Image = Image(size: int, png: seq<Byte>)

  const HEADER: int := 6
  const RECORD: int := 16

  // ----- the layout -----------------------------------------------------------------

  /** Where image i's bytes start: after the directory and every image before it. */
  function Offset(images: seq<Image>, i: nat): nat
    requires i <= |images|
  {
    if i == 0 then HEADER + |images| * RECORD else Offset(images, i - 1) + |images[i - 1].png|
  }

  /** Every number in image i's record fits the field it is written to. */
  predicate RecordFits(images: seq<Image>, i: nat)
    requires i < |images|
  {
    0 <= images[i].size && |images[i].png| < WORD32 && Offset(images, i) < WORD32
  }

  predicate Fits(images: seq<Image>) {
    |images| < WORD16 && forall i | 0 <= i < |images| :: RecordFits(images, i)
  }

  function SizeByte(size: int): int { if size >= 256 then 0 else size }

  function Header(count: int): (bytes: seq<Byte>)
    requires 0 <= count < WORD16
    ensures |bytes| == HEADER
  {
    LittleEndian16(0) + LittleEndian16(1) + LittleEndian16(count)
  }

  function Record(image: Image, offset: int): (bytes: seq<Byte>)
    requires 0 <= image.size && |image.png| < WORD32 && 0 <= offset < WORD32
    ensures |bytes| == RECORD
  {
    [ToByte(SizeByte(image.size)), ToByte(SizeByte(image.size)), ToByte(0), ToByte(0)]
    + LittleEndian16(1) + LittleEndian16(32) + LittleEndian32(|image.png|) + LittleEndian32(offset)
  }

  lemma {:induction false} OffsetAfterDirectory(images: seq<Image>, i: nat)
    requires i <= |images|
    ensures HEADER + |images| * RECORD <= Offset(images, i)
  {
    if i > 0 {
      OffsetAfterDirectory(images, i - 1);
    }
  }

  function Directory(images: seq<Image>, n: nat): (bytes: seq<Byte>)
    requires n <= |images| && forall i | 0 <= i < n :: RecordFits(images, i)
    ensures |bytes| == n * RECORD
  {
    if n == 0 then []
    else
      assert RecordFits(images, n - 1);
      Directory(images, n - 1) + Record(images[n - 1], Offset(images, n - 1))
  }

  function Payloads(images: seq<Image>, n: nat): (bytes: seq<Byte>)
    requires n <= |images|
    ensures |bytes| == Offset(images, n) - Offset(images, 0)
  {
    if n == 0 then [] else Payloads(images, n - 1) + images[n - 1].png
  }

  function Packed(images: seq<Image>): Result<seq<Byte>, RangeError> {
    if Fits(images) then
      Ok(Header(|images|) + Directory(images, |images|) + Payloads(images, |images|))
    else Err(OutOfRange)
  }

  // ----- the packer ------------------------------------------------------------------

  /** Records are written as the offset runs ahead, and the images appended after them. */
  method PackIco(images: seq<Image>) returns (file: Result<seq<Byte>, RangeError>)
    ensures file == Packed(images)
  {
    hide Record, Header;
    if |images| >= WORD16 { return Err(OutOfRange); }
    var header := Header(|images|);
    var offset := HEADER + |images| * RECORD;
    var entries: seq<Byte>, payload: seq<Byte> := [], [];
    var written := 0;
    while written < |images|
      invariant 0 <= written <= |images|
      invariant offset == Offset(images, written) && 0 <= offset
      invariant forall i | 0 <= i < written :: RecordFits(images, i)
      invariant payload == Payloads(images, written)
      invariant entries == Directory(images, written)
    {
      var image := images[written];
      if image.size < 0 || |image.png| >= WORD32 || offset >= WORD32 {
        assert !RecordFits(images, written);
        return Err(OutOfRange);
      }
      entries := entries + Record(image, offset);
      payload := payload + image.png;
      offset := offset + |image.png|;
      written := written + 1;
    }
    assert Fits(images);
    file := Ok(header + entries + payload);
  }

  // ----- reading it back ---------------------------------------------------------------

  datatype Entry = Entry(size: int, length: int, offset: int)

  /** Directory entry i of a file, as a decoder reads it. */
  function ReadEntry(file: seq<Byte>, i: nat): Entry
    requires HEADER + (i + 1) * RECORD <= |file|
  {
    var record := file[HEADER + i * RECORD..HEADER + (i + 1) * RECORD];
    var side := record[0] as int;
    Entry(if side == 0 then 256 else side, FromLittleEndian(record[8..12]), FromLittleEndian(record[12..16]))
  }

  function ReadCount(file: seq<Byte>): int
    requires HEADER <= |file|
  {
    FromLittleEndian(file[4..6])
  }

  lemma RecordReadsBack(image: Image, offset: int)
    requires 0 <= image.size && |image.png| < WORD32 && 0 <= offset < WORD32
    ensures
      var record := Record(image, offset);
      && record[0] as int == SizeByte(image.size)
      && FromLittleEndian(record[8..12]) == |image.png|
      && FromLittleEndian(record[12..16]) == offset
  {
    hide LittleEndian16, LittleEndian32, FromLittleEndian;
    var record := Record(image, offset);
    assert record[8..12] == LittleEndian32(|image.png|);
    assert record[12..16] == LittleEndian32(offset);
  }

  lemma {:induction false} DirectoryAt(images: seq<Image>, n: nat, i: nat)
    requires i < n <= |images| && forall j | 0 <= j < n :: RecordFits(images, j)
    ensures RecordFits(images, i)
    ensures Directory(images, n)[i * RECORD..(i + 1) * RECORD] == Record(images[i], Offset(images, i))
  {
    hide Record;
    OffsetAfterDirectory(images, i);
    if i < n - 1 {
      DirectoryAt(images, n - 1, i);
      assert Directory(images, n)[..(n - 1) * RECORD] == Directory(images, n - 1);
    }
  }

  lemma {:induction false} PayloadAt(images: seq<Image>, n: nat, i: nat)
    requires i < n <= |images|
    ensures Offset(images, 0) <= Offset(images, i) <= Offset(images, i + 1) <= Offset(images, n)
    ensures Payloads(images, n)[Offset(images, i) - Offset(images, 0)..Offset(images, i + 1) - Offset(images, 0)]
         == images[i].png
  {
    OffsetAfterDirectory(images, i);
    if i < n - 1 {
      PayloadAt(images, n - 1, i);
      assert Payloads(images, n)[..Offset(images, n - 1) - Offset(images, 0)] == Payloads(images, n - 1);
    } else {
      assert Payloads(images, n) == Payloads(images, i) + images[i].png;
    }
  }

  /**
    * Following the directory recovers every image: its exact bytes always, and its size
    * exactly when that is from 1 to 256.
    */
  lemma IcoRoundTrip(images: seq<Image>, i: nat)
    requires Packed(images).Ok? && i < |images|
    ensures
      var file := Packed(images).value;
      && HEADER + |images| * RECORD <= |file| && ReadCount(file) == |images|
      && var entry := ReadEntry(file, i);
         && 0 <= entry.offset <= entry.offset + entry.length <= |file|
         && file[entry.offset..entry.offset + entry.length] == images[i].png
         && (entry.size == images[i].size <==> 1 <= images[i].size <= 256)
  {
    hide Record, ReadEntry, Payloads, Directory;
    ReadCountAt(images);
    ReadEntryAt(images, i);
    PayloadInFile(images, i);
  }

  lemma ReadCountAt(images: seq<Image>)
    requires Packed(images).Ok?
    ensures HEADER + |images| * RECORD <= |Packed(images).value|
    ensures ReadCount(Packed(images).value) == |images|
  {
    hide LittleEndian16, FromLittleEndian, Record, Directory, Payloads;
    OffsetAfterDirectory(images, |images|);
    assert Packed(images).value[4..6] == LittleEndian16(|images|);
  }

  lemma PayloadInFile(images: seq<Image>, i: nat)
    requires Packed(images).Ok? && i < |images|
    ensures 0 <= Offset(images, i) <= Offset(images, i + 1) <= |Packed(images).value|
    ensures Offset(images, |images|) == |Packed(images).value|
    ensures Packed(images).value[Offset(images, i)..Offset(images, i + 1)] == images[i].png
  {
    hide Record, Header, Directory, Payloads;
    var n := |images|;
    PayloadAt(images, n, i);
    OffsetAfterDirectory(images, i);
    var start := Offset(images, 0);
    var front := Header(n) + Directory(images, n);
    assert |front| == start;
    assert (front + Payloads(images, n))[Offset(images, i)..Offset(images, i + 1)]
        == Payloads(images, n)[Offset(images, i) - start..Offset(images, i + 1) - start];
  }

  /** The images follow the directory in order, back to back, to the end of the file. */
  lemma PayloadsFillTheFile(images: seq<Image>, i: nat)
    requires Packed(images).Ok? && i < |images|
    ensures
      var file := Packed(images).value;
      && HEADER + |images| * RECORD <= |file|
      && ReadEntry(file, 0).offset == HEADER + RECORD * |images|
      && var entry := ReadEntry(file, i);
         entry.offset + entry.length == if i + 1 < |images| then ReadEntry(file, i + 1).offset else |file|
  {
    hide Record, ReadEntry, Payloads, Directory;
    ReadEntryAt(images, 0);
    ReadEntryAt(images, i);
    PayloadInFile(images, i);
    if i + 1 < |images| {
      ReadEntryAt(images, i + 1);
    }
  }

  lemma ReadEntryAt(images: seq<Image>, i: nat)
    requires Packed(images).Ok? && i < |images|
    ensures HEADER + |images| * RECORD <= |Packed(images).value|
    ensures
      var entry := ReadEntry(Packed(images).value, i);
      && entry.length == |images[i].png| && entry.offset == Offset(images, i)
      && (entry.size == images[i].size <==> 1 <= images[i].size <= 256)
  {
    RecordInFile(images, i);
    RecordReadsBack(images[i], Offset(images, i));
    hide FromLittleEndian, Record, Packed;
  }

  lemma RecordInFile(images: seq<Image>, i: nat)
    requires Packed(images).Ok? && i < |images|
    ensures RecordFits(images, i) && HEADER + |images| * RECORD <= |Packed(images).value|
    ensures Packed(images).value[HEADER + i * RECORD..HEADER + (i + 1) * RECORD]
         == Record(images[i], Offset(images, i))
  {
    hide Record, Header, Directory, Payloads;
    var n := |images|;
    OffsetAfterDirectory(images, n);
    DirectoryAt(images, n, i);
    var header, directory, payloads := Header(n), Directory(images, n), Payloads(images, n);
    assert (header + directory + payloads)[HEADER + i * RECORD..HEADER + (i + 1) * RECORD]
        == directory[i * RECORD..(i + 1) * RECORD];
  }

  // ----- every other field ---------------------------------------------------------------

  /** The fixed fields of the container: reserved zero, the icon type, and a record's own. */
  predicate RecordFields(record: seq<Byte>) {
    && |record| == RECORD
    && record[1] == record[0]
    && record[2] as int == 0 && record[3] as int == 0
    && FromLittleEndian(record[4..6]) == 1 && FromLittleEndian(record[6..8]) == 32
  }

  lemma RecordHasFields(image: Image, offset: int)
    requires 0 <= image.size && |image.png| < WORD32 && 0 <= offset < WORD32
    ensures RecordFields(Record(image, offset))
  {
    hide LittleEndian16, LittleEndian32, FromLittleEndian;
    var record := Record(image, offset);
    assert record[4..6] == LittleEndian16(1);
    assert record[6..8] == LittleEndian16(32);
  }

  lemma HeaderHasFields(count: int)
    requires 0 <= count < WORD16
    ensures FromLittleEndian(Header(count)[0..2]) == 0 && FromLittleEndian(Header(count)[2..4]) == 1
  {
    hide LittleEndian16, FromLittleEndian;
    assert Header(count)[0..2] == LittleEndian16(0);
    assert Header(count)[2..4] == LittleEndian16(1);
  }

  /**
    * The file is an icon: reserved word 0 and type 1, and every record square, with no palette,
    * one plane and 32 bits a pixel.
    */
  lemma FieldsReadBack(images: seq<Image>, i: nat)
    requires Packed(images).Ok? && i < |images|
    ensures
      var file := Packed(images).value;
      && HEADER + |images| * RECORD <= |file|
      && FromLittleEndian(file[0..2]) == 0 && FromLittleEndian(file[2..4]) == 1
      && RecordFields(file[HEADER + i * RECORD..HEADER + (i + 1) * RECORD])
  {
    hide Record, RecordFields, Header, FromLittleEndian, Directory, Payloads;
    RecordInFile(images, i);
    RecordHasFields(images[i], Offset(images, i));
    HeaderHasFields(|images|);
    var file, header := Packed(images).value, Header(|images|);
    assert file[0..2] == header[0..2] && file[2..4] == header[2..4];
  }
}
