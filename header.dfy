// The 31-sample ProTracker header of source/engine/protracker/mod/header.ts:
// its records, the byte layout they are read from, the parser that drives a
// Reader through that layout, and the pattern count derived from the order
// table.
//
// Header layout, offsets relative to the start of the file:
//    0    20   song title (NUL-padded)
//   20   930   31 sample headers of 30 bytes each
//  950     1   song length
//  951     1   restart position
//  952   128   order table
// 1080     4   magic id, "M.K."
module Header {
  import opened Common
  import opened IoReader

  const TitleSize := 20
  const SampleCount := 31
  const SampleRecordSize := 30
  const SampleNameSize := 22
  const OrderTableSize := 128
  const SongLengthOffset := 950
  const OrderTableOffset := 952
  const IdOffset := 1080
  /** The whole fixed header, magic id included. */
  const HeaderSize := 1084
  /** The bytes of the only accepted magic id, "M.K.". */
  const MagicMK: seq<Byte> := [77, 46, 75, 46]

  datatype SampleHeader = SampleHeader(
    name: string,           // up to 22 characters
    lengthWords: U16,       // sample length in 16-bit words
    finetune: Byte,         // raw byte, not range-checked
    volume: Byte,           // raw byte, not range-checked
    loopStartWords: U16,
    loopLengthWords: U16)

  datatype ModHeader = ModHeader(
    title: string,
    songLength: Byte,
    restartPosition: Byte,
    orderTable: seq<Byte>,
    id: string,
    samples: seq<SampleHeader>)

  // ---------------------------------------------------------------------
  // The layout as a pure decoding of the bytes

  /** One 30-byte sample record: name, length, finetune, volume, loop start, loop length. */
  function DecodeSample(b: seq<Byte>): SampleHeader
    requires |b| == SampleRecordSize
  {
    SampleHeader(CString(b[..22]), Be16(b[22], b[23]), b[24], b[25], Be16(b[26], b[27]), Be16(b[28], b[29]))
  }

  /** Offset of sample record i within the header. */
  function SampleOffset(i: nat): nat
  {
    TitleSize + SampleRecordSize * i
  }

  /** The fields of a 1084-byte header, magic not yet checked. */
  function DecodeFields(h: seq<Byte>): (m: ModHeader)
    requires |h| == HeaderSize
    ensures |m.samples| == SampleCount && |m.orderTable| == OrderTableSize
    ensures |m.title| <= TitleSize && |m.id| <= 4
  {
    ModHeader(
      CString(h[..TitleSize]),
      h[SongLengthOffset],
      h[SongLengthOffset + 1],
      h[OrderTableOffset..IdOffset],
      CString(h[IdOffset..HeaderSize]),
      seq(SampleCount, i requires 0 <= i < SampleCount => DecodeSample(h[SampleOffset(i)..SampleOffset(i) + SampleRecordSize])))
  }

  /**
   * What parsing the header at offset start of data yields: OutOfRange when
   * fewer than 1084 bytes remain, UnsupportedFormat when the id is not
   * "M.K.", and the decoded fields otherwise.
   */
  function DecodeHeader(data: seq<Byte>, start: nat): Result<ModHeader>
    requires start <= |data|
  {
    if start + HeaderSize > |data| then Err(OutOfRange)
    else
      var h := DecodeFields(data[start..start + HeaderSize]);
      if h.id != "M.K." then Err(UnsupportedFormat) else Ok(h)
  }

  /**
   * The width of the header field that starts at offset o, or 0 when no
   * field starts there. The parser reads the fields in this order.
   */
  function FieldWidth(o: int): nat
  {
    if o == 0 then TitleSize
    else if TitleSize <= o < SongLengthOffset then SampleFieldWidth((o - TitleSize) % SampleRecordSize)
    else if o == SongLengthOffset || o == SongLengthOffset + 1 then 1
    else if o == OrderTableOffset then OrderTableSize
    else if o == IdOffset then 4
    else 0
  }

  /** The width of the field at offset k within a sample record. */
  function SampleFieldWidth(k: int): nat
  {
    if k == 0 then SampleNameSize
    else if k == 22 || k == 26 || k == 28 then 2
    else if k == 24 || k == 25 then 1
    else 0
  }

  // ---------------------------------------------------------------------
  // The parser

  lemma SampleFieldAt(i: nat, k: nat)
    requires i < SampleCount && SampleFieldWidth(k) > 0
    ensures FieldWidth(SampleOffset(i) + k) == SampleFieldWidth(k)
  {
    assert (SampleRecordSize * i + k) % SampleRecordSize == k;
  }

  /**
   * Reads one 30-byte sample record at the cursor, field by field. When a
   * field does not fit, the cursor stops at that field's start within the
   * record.
   */
  method ReadSampleHeader(reader: Reader) returns (r: Result<SampleHeader>)
    requires reader.Valid()
    modifies reader
    ensures reader.Valid()
    ensures var p := old(reader.position);
      r.Ok? <==> p + SampleRecordSize <= |reader.data|
    ensures var p := old(reader.position);
      r.Ok? ==> r.value == DecodeSample(reader.data[p..p + SampleRecordSize]) && reader.position == p + SampleRecordSize
    ensures r.Err? ==>
      var k := reader.position - old(reader.position);
      r.error == OutOfRange && 0 <= k && SampleFieldWidth(k) > 0 && reader.position + SampleFieldWidth(k) > |reader.data|
  {
    ghost var p := reader.position;
    ghost var data := reader.data;
    var name := reader.Str(SampleNameSize);
    if name.Err? {
      return Err(name.error);
    }
    var lengthWords := reader.U16BE();
    if lengthWords.Err? {
      return Err(lengthWords.error);
    }
    var finetune := reader.U8();
    if finetune.Err? {
      return Err(finetune.error);
    }
    var volume := reader.U8();
    if volume.Err? {
      return Err(volume.error);
    }
    var loopStartWords := reader.U16BE();
    if loopStartWords.Err? {
      return Err(loopStartWords.error);
    }
    var loopLengthWords := reader.U16BE();
    if loopLengthWords.Err? {
      return Err(loopLengthWords.error);
    }
    SliceOfSlice(data, p, p + SampleRecordSize, 0, 22);
    assert data[p..p + SampleRecordSize][..22] == data[p..p + 22];
    return Ok(SampleHeader(name.value, lengthWords.value, finetune.value, volume.value,
                           loopStartWords.value, loopLengthWords.value));
  }

  /** The fields read one by one from data at start are those DecodeFields finds in the header slice. */
  lemma DecodeFieldsAt(data: seq<Byte>, start: nat, samples: seq<SampleHeader>)
    requires start + HeaderSize <= |data|
    requires |samples| == SampleCount
    requires forall k :: 0 <= k < SampleCount ==>
      samples[k] == DecodeSample(data[start + SampleOffset(k)..start + SampleOffset(k) + SampleRecordSize])
    ensures DecodeFields(data[start..start + HeaderSize]) == ModHeader(
      CString(data[start..start + TitleSize]),
      data[start + SongLengthOffset],
      data[start + SongLengthOffset + 1],
      data[start + OrderTableOffset..start + IdOffset],
      CString(data[start + IdOffset..start + HeaderSize]),
      samples)
  {
    var h := data[start..start + HeaderSize];
    assert h[..TitleSize] == data[start..start + TitleSize];
    assert h[OrderTableOffset..IdOffset] == data[start + OrderTableOffset..start + IdOffset];
    assert h[IdOffset..HeaderSize] == data[start + IdOffset..start + HeaderSize];
    forall k | 0 <= k < SampleCount
      ensures h[SampleOffset(k)..SampleOffset(k) + SampleRecordSize]
           == data[start + SampleOffset(k)..start + SampleOffset(k) + SampleRecordSize]
    {
      SliceOfSlice(data, start, start + HeaderSize, SampleOffset(k), SampleOffset(k) + SampleRecordSize);
    }
  }

  /** Every header field lies within the 1084-byte header. */
  lemma FieldWithinHeader(o: int)
    requires FieldWidth(o) > 0
    ensures 0 <= o && o + FieldWidth(o) <= HeaderSize
  {
    if TitleSize <= o < SongLengthOffset {
      var q, k := (o - TitleSize) / SampleRecordSize, (o - TitleSize) % SampleRecordSize;
      assert o == SampleOffset(q) + k && q < SampleCount;
    }
  }

  /** A field that runs past the end of the data makes the whole header fail with OutOfRange. */
  lemma TruncatedAt(data: seq<Byte>, start: nat, o: int)
    requires start <= |data|
    requires FieldWidth(o) > 0 && start + o + FieldWidth(o) > |data|
    ensures DecodeHeader(data, start) == Err(OutOfRange)
  {
    FieldWithinHeader(o);
  }

  /** The sample record at index k of the header that starts at offset start of data. */
  function SampleRecord(data: seq<Byte>, start: nat, k: nat): seq<Byte>
    requires k < SampleCount && start + SongLengthOffset <= |data|
  {
    data[start + SampleOffset(k)..start + SampleOffset(k) + SampleRecordSize]
  }

  /** Each of samples is the decoding of its record in the header at offset start of data. */
  ghost predicate RecordsDecoded(data: seq<Byte>, start: nat, samples: seq<SampleHeader>)
  {
    forall k :: 0 <= k < |samples| ==>
      && start + SampleOffset(k) + SampleRecordSize <= |data|
      && samples[k] == DecodeSample(data[start + SampleOffset(k)..start + SampleOffset(k) + SampleRecordSize])
  }

  /** Decoding the next record extends the decoded prefix by one. */
  lemma RecordsExtend(data: seq<Byte>, start: nat, samples: seq<SampleHeader>, next: SampleHeader)
    requires RecordsDecoded(data, start, samples)
    requires start + SampleOffset(|samples|) + SampleRecordSize <= |data|
    requires next == DecodeSample(data[start + SampleOffset(|samples|)..start + SampleOffset(|samples|) + SampleRecordSize])
    ensures RecordsDecoded(data, start, samples + [next])
  {
  }

  /**
   * Reads the 31 sample records that follow the title, in order. When a
   * record does not fit, the cursor stops at the start of the field that
   * did not fit.
   */
  method ReadSampleHeaders(reader: Reader, ghost start: nat) returns (r: Result<seq<SampleHeader>>)
    requires reader.Valid() && reader.position == start + TitleSize
    modifies reader
    ensures reader.Valid()
    ensures r.Ok? <==> start + SongLengthOffset <= |reader.data|
    ensures r.Ok? ==>
      && reader.position == start + SongLengthOffset
      && |r.value| == SampleCount
      && forall k :: 0 <= k < SampleCount ==> r.value[k] == DecodeSample(SampleRecord(reader.data, start, k))
    ensures r.Err? ==>
      var o := reader.position - start;
      r.error == OutOfRange && FieldWidth(o) > 0 && reader.position + FieldWidth(o) > |reader.data|
  {
    ghost var data := reader.data;
    var samples: seq<SampleHeader> := [];
    var i := 0;
    while i < SampleCount
      invariant 0 <= i <= SampleCount
      invariant reader.Valid()
      invariant reader.position == start + SampleOffset(i)
      invariant |samples| == i
      invariant RecordsDecoded(data, start, samples)
    {
      var sampleHeader := ReadSampleHeader(reader);
      if sampleHeader.Err? {
        SampleFieldAt(i, reader.position - (start + SampleOffset(i)));
        return Err(sampleHeader.error);
      }
      RecordsExtend(data, start, samples, sampleHeader.value);
      samples := samples + [sampleHeader.value];
      i := i + 1;
    }
    return Ok(samples);
  }

  /**
   * Parses the header at the reader's cursor. On success the cursor is
   * 1084 bytes further on, just past the id; when the id is wrong the
   * cursor is there too; when the buffer is too short the cursor stops at
   * the start of the first field that did not fit.
   */
  method ParseHeader(reader: Reader) returns (r: Result<ModHeader>)
    requires reader.Valid()
    modifies reader
    ensures reader.Valid()
    ensures r == DecodeHeader(reader.data, old(reader.position))
    ensures r.Ok? || r == Err(UnsupportedFormat) ==> reader.position == old(reader.position) + HeaderSize
    ensures r == Err(OutOfRange) ==>
      var o := reader.position - old(reader.position);
      FieldWidth(o) > 0 && reader.position + FieldWidth(o) > |reader.data|
  {
    ghost var start := reader.position;
    ghost var data := reader.data;

    var title := reader.Str(TitleSize);
    if title.Err? {
      TruncatedAt(data, start, 0);
      return Err(title.error);
    }

    var samples := ReadSampleHeaders(reader, start);
    if samples.Err? {
      TruncatedAt(data, start, reader.position - start);
      return Err(samples.error);
    }

    var songLength := reader.U8();
    if songLength.Err? {
      TruncatedAt(data, start, SongLengthOffset);
      return Err(songLength.error);
    }
    var restartPosition := reader.U8();
    if restartPosition.Err? {
      TruncatedAt(data, start, SongLengthOffset + 1);
      return Err(restartPosition.error);
    }
    var orderTable := reader.Bytes(OrderTableSize);
    if orderTable.Err? {
      TruncatedAt(data, start, OrderTableOffset);
      return Err(orderTable.error);
    }
    var id := reader.Str(4);
    if id.Err? {
      TruncatedAt(data, start, IdOffset);
      return Err(id.error);
    }

    DecodeFieldsAt(data, start, samples.value);
    if id.value != "M.K." {
      return Err(UnsupportedFormat);
    }

    return Ok(ModHeader(title.value, songLength.value, restartPosition.value, orderTable.value, id.value, samples.value));
  }

  // ---------------------------------------------------------------------
  // Pattern count

  /**
   * The largest of the first n order-table entries, or 0 when there are
   * none. Positions past the end of the table hold no entry and are
   * skipped.
   */
  function MaxOrderIndex(orderTable: seq<Byte>, n: nat): (m: nat)
    ensures forall i :: 0 <= i < n && i < |orderTable| ==> orderTable[i] <= m
    ensures m == 0 || exists i :: 0 <= i < n && i < |orderTable| && orderTable[i] == m
  {
    if n == 0 then 0
    else
      var m := MaxOrderIndex(orderTable, n - 1);
      if n - 1 < |orderTable| && orderTable[n - 1] > m then orderTable[n - 1] else m
  }

  /** The number of patterns stored in the file: the largest index the song plays, plus one. */
  function PatternCount(header: ModHeader): nat
  {
    MaxOrderIndex(header.orderTable, header.songLength) + 1
  }

  /**
   * Scans the first songLength entries of the order table for the largest
   * pattern index and returns it plus one.
   */
  method ComputePatternCount(header: ModHeader) returns (count: int)
    ensures count == PatternCount(header)
    ensures 1 <= count <= 256
    ensures forall i :: 0 <= i < header.songLength && i < |header.orderTable| ==> header.orderTable[i] < count
    ensures count == 1 || exists i :: 0 <= i < header.songLength && i < |header.orderTable| && header.orderTable[i] == count - 1
  {
    var max: int := 0;
    var i := 0;
    while i < header.songLength
      invariant 0 <= i <= header.songLength
      invariant max == MaxOrderIndex(header.orderTable, i)
    {
      if i < |header.orderTable| {
        var p := header.orderTable[i];
        if p > max {
          max := p;
        }
      }
      i := i + 1;
    }
    return max + 1;
  }

  /** The order-table entry at position i, or -1 where the table has none. */
  function Entry(orderTable: seq<Byte>, i: nat): int
  {
    if i < |orderTable| then orderTable[i] else -1
  }

  /** Only the first songLength entries of the order table matter to the pattern count. */
  lemma PatternCountReadsPrefix(a: ModHeader, b: ModHeader)
    requires a.songLength == b.songLength
    requires forall i: nat :: i < a.songLength ==> Entry(a.orderTable, i) == Entry(b.orderTable, i)
    ensures PatternCount(a) == PatternCount(b)
  {
    MaxOrderIndexAgree(a.orderTable, b.orderTable, a.songLength);
  }

  lemma {:induction false} MaxOrderIndexAgree(s: seq<Byte>, t: seq<Byte>, n: nat)
    requires forall i: nat :: i < n ==> Entry(s, i) == Entry(t, i)
    ensures MaxOrderIndex(s, n) == MaxOrderIndex(t, n)
  {
    if n > 0 {
      MaxOrderIndexAgree(s, t, n - 1);
      assert Entry(s, n - 1) == Entry(t, n - 1);
    }
  }

  /** A song of three positions playing patterns 5, 2, 9 stores ten patterns. */
  lemma PatternCountExample()
    ensures PatternCount(ModHeader("", 3, 0, [5, 2, 9] + seq(125, _ => 0), "M.K.", [])) == 10
  {
    var t: seq<Byte> := [5, 2, 9] + seq(125, _ => 0);
    assert MaxOrderIndex(t, 1) == 5;
    assert MaxOrderIndex(t, 2) == 5;
  }
}
