// Properties of the header decoding: which ids are accepted, where each
// field of a decoded header comes from, and an encoder that writes a header
// back to bytes, with the proof that decoding reads back what was written.
module HeaderEncoding {
  import opened Common
  import opened IoReader
  import opened Header

  // ---------------------------------------------------------------------
  // The magic id

  /** Four id bytes decode to "M.K." exactly when they are the bytes 'M', '.', 'K', '.'. */
  lemma MagicAccepted(b: seq<Byte>)
    requires |b| == 4
    ensures CString(b) == "M.K." <==> b == MagicMK
  {
    if b == MagicMK {
      CStringUpTo(b, 4);
    }
    if CString(b) == "M.K." {
      CStringShape(b);
      var s := CString(b);
      assert CharOf(b[0]) == 'M' && CharOf(b[1]) == '.' && CharOf(b[2]) == 'K' && CharOf(b[3]) == '.';
      assert b[0] == 77 && b[1] == 46 && b[2] == 75 && b[3] == 46;
    }
  }

  /**
   * Parsing succeeds exactly when 1084 bytes remain from the start and the
   * four bytes at start + 1080 are 'M', '.', 'K', '.'. An id with a NUL in
   * it, or any other four bytes, is rejected as UnsupportedFormat.
   */
  lemma DecodeHeaderSucceeds(data: seq<Byte>, start: nat)
    requires start <= |data|
    ensures DecodeHeader(data, start).Ok? <==>
      start + HeaderSize <= |data| && data[start + IdOffset..start + HeaderSize] == MagicMK
    ensures start + HeaderSize > |data| ==> DecodeHeader(data, start) == Err(OutOfRange)
    ensures DecodeHeader(data, start) == Err(UnsupportedFormat) <==>
      start + HeaderSize <= |data| && data[start + IdOffset..start + HeaderSize] != MagicMK
  {
    if start + HeaderSize <= |data| {
      var h := data[start..start + HeaderSize];
      SliceOfSlice(data, start, start + HeaderSize, IdOffset, HeaderSize);
      MagicAccepted(h[IdOffset..HeaderSize]);
    }
  }

  /**
   * Where the fields of a successfully decoded header come from, as
   * absolute offsets in data: song length at start + 950, restart position
   * at start + 951, the order table at start + 952 .. start + 1079, and
   * sample i's record at start + 20 + 30i, laid out as a 22-byte name, a
   * big-endian length, finetune, volume, and big-endian loop start and
   * loop length.
   */
  lemma DecodedFieldOffsets(data: seq<Byte>, start: nat, i: nat)
    requires start <= |data| && DecodeHeader(data, start).Ok? && i < SampleCount
    ensures var m := DecodeHeader(data, start).value;
      && m.id == "M.K."
      && m.title == CString(data[start..start + 20])
      && m.songLength == data[start + 950]
      && m.restartPosition == data[start + 951]
      && m.orderTable == data[start + 952..start + 1080]
      && |m.samples| == 31
      && var o := start + 20 + 30 * i;
         var s := m.samples[i];
         && s.name == CString(data[o..o + 22])
         && s.lengthWords == data[o + 22] as int * 256 + data[o + 23]
         && s.finetune == data[o + 24]
         && s.volume == data[o + 25]
         && s.loopStartWords == data[o + 26] as int * 256 + data[o + 27]
         && s.loopLengthWords == data[o + 28] as int * 256 + data[o + 29]
  {
    var h := data[start..start + HeaderSize];
    var o := start + SampleOffset(i);
    SliceOfSlice(data, start, start + HeaderSize, 0, TitleSize);
    SliceOfSlice(data, start, start + HeaderSize, OrderTableOffset, IdOffset);
    SliceOfSlice(data, start, start + HeaderSize, SampleOffset(i), SampleOffset(i) + SampleRecordSize);
    SliceOfSlice(data, o, o + SampleRecordSize, 0, SampleNameSize);
  }

  // ---------------------------------------------------------------------
  // Writing a header back to bytes

  /** Text a fixed-width field can hold: at most width characters, each a nonzero byte value. */
  predicate FitsField(s: string, width: nat)
  {
    |s| <= width && forall i :: 0 <= i < |s| ==> 0 < s[i] as int < 256
  }

  /** A fixed-width text field: the characters' byte values, padded with NULs. */
  function EncodeText(s: string, width: nat): (b: seq<Byte>)
    requires FitsField(s, width)
    ensures |b| == width
  {
    seq(width, i requires 0 <= i < width => if i < |s| then s[i] as int else 0)
  }

  /** The two bytes of a big-endian 16-bit field. */
  function EncodeU16(w: U16): seq<Byte>
  {
    [w / 256, w % 256]
  }

  /** A sample header that can be written: its name fits the 22-byte field. */
  predicate SampleEncodable(s: SampleHeader)
  {
    FitsField(s.name, SampleNameSize)
  }

  /** A header that can be written: texts fit their fields, 31 samples, 128 order entries, id "M.K.". */
  predicate HeaderEncodable(m: ModHeader)
  {
    && FitsField(m.title, TitleSize)
    && |m.samples| == SampleCount
    && (forall k :: 0 <= k < |m.samples| ==> SampleEncodable(m.samples[k]))
    && |m.orderTable| == OrderTableSize
    && m.id == "M.K."
  }

  function EncodeSample(s: SampleHeader): (b: seq<Byte>)
    requires SampleEncodable(s)
    ensures |b| == SampleRecordSize
  {
    EncodeText(s.name, SampleNameSize) + EncodeU16(s.lengthWords) + [s.finetune, s.volume]
      + EncodeU16(s.loopStartWords) + EncodeU16(s.loopLengthWords)
  }

  function EncodeSamples(ss: seq<SampleHeader>): (b: seq<Byte>)
    requires forall k :: 0 <= k < |ss| ==> SampleEncodable(ss[k])
    ensures |b| == SampleRecordSize * |ss|
  {
    if ss == [] then [] else EncodeSample(ss[0]) + EncodeSamples(ss[1..])
  }

  function EncodeHeader(m: ModHeader): (b: seq<Byte>)
    requires HeaderEncodable(m)
    ensures |b| == HeaderSize
  {
    EncodeText(m.title, TitleSize) + EncodeSamples(m.samples) + [m.songLength, m.restartPosition]
      + m.orderTable + MagicMK
  }

  /** A text field reads back as the text written into it. */
  lemma TextRoundTrip(s: string, width: nat)
    requires FitsField(s, width)
    ensures CString(EncodeText(s, width)) == s
  {
    var b := EncodeText(s, width);
    CStringUpTo(b, |s|);
    assert forall i :: 0 <= i < |s| ==> CharOf(b[i]) == s[i];
  }

  /** A sample record reads back as the sample header written into it. */
  lemma SampleRoundTrip(s: SampleHeader)
    requires SampleEncodable(s)
    ensures DecodeSample(EncodeSample(s)) == s
  {
    var b := EncodeSample(s);
    assert b[..SampleNameSize] == EncodeText(s.name, SampleNameSize);
    TextRoundTrip(s.name, SampleNameSize);
  }

  /** Record k of the encoded samples is the encoding of sample k. */
  lemma {:induction false} EncodeSamplesAt(ss: seq<SampleHeader>, k: nat)
    requires forall j :: 0 <= j < |ss| ==> SampleEncodable(ss[j])
    requires k < |ss|
    ensures EncodeSamples(ss)[SampleRecordSize * k..SampleRecordSize * k + SampleRecordSize] == EncodeSample(ss[k])
  {
    var b := EncodeSamples(ss);
    if k == 0 {
      assert b[..SampleRecordSize] == EncodeSample(ss[0]);
    } else {
      EncodeSamplesAt(ss[1..], k - 1);
      var rest := EncodeSamples(ss[1..]);
      assert b == EncodeSample(ss[0]) + rest;
      SliceOfSlice(b, SampleRecordSize, |b|, SampleRecordSize * (k - 1), SampleRecordSize * (k - 1) + SampleRecordSize);
      assert b[SampleRecordSize..] == rest;
    }
  }

  /**
   * Decoding reads back the header that was written, whatever bytes
   * (pattern and sample data) follow it.
   */
  lemma HeaderRoundTrip(m: ModHeader, rest: seq<Byte>)
    requires HeaderEncodable(m)
    ensures DecodeHeader(EncodeHeader(m) + rest, 0) == Ok(m)
  {
    var e := EncodeHeader(m);
    var d := e + rest;
    assert d[0..HeaderSize] == e;
    var es := EncodeSamples(m.samples);
    assert e[..TitleSize] == EncodeText(m.title, TitleSize);
    TextRoundTrip(m.title, TitleSize);
    assert e[OrderTableOffset..IdOffset] == m.orderTable;
    assert e[IdOffset..HeaderSize] == MagicMK;
    MagicAccepted(MagicMK);
    assert e[TitleSize..SongLengthOffset] == es;
    forall k | 0 <= k < SampleCount
      ensures DecodeSample(e[SampleOffset(k)..SampleOffset(k) + SampleRecordSize]) == m.samples[k]
    {
      SliceOfSlice(e, TitleSize, SongLengthOffset, SampleRecordSize * k, SampleRecordSize * k + SampleRecordSize);
      EncodeSamplesAt(m.samples, k);
      SampleRoundTrip(m.samples[k]);
    }
    var h := DecodeFields(e);
    assert h.samples == m.samples;
  }
}
