// The structural layout of source/engine/protracker/mod/layout.ts: where
// pattern data and sample data start in a 4-channel "M.K." file, how large
// they are, the smallest file that holds them all, and the advisory checks
// of a file size against that layout.
module Layout {
  import opened Common
  import opened Header

  const Channels := 4
  const RowsPerPattern := 64
  /** Four bytes per channel in every row. */
  const BytesPerRow := Channels * 4
  const BytesPerPattern := RowsPerPattern * BytesPerRow
  /** Pattern data starts right after the 4-byte id. */
  const PatternDataOffset := IdOffset + 4

  datatype ModLayout = ModLayout(
    channels: int,
    headerOffset: int,
    idOffset: int,
    patternDataOffset: int,
    bytesPerRow: int,
    rowsPerPattern: int,
    bytesPerPattern: int,
    patternCount: int,
    patternDataSize: int,
    sampleDataOffset: int,
    sampleDataSize: int,
    expectedMinFileSize: int)

  /**
   * The bytes of sample data the headers declare: each length in words,
   * doubled, added up in header order.
   */
  function SampleDataSize(samples: seq<SampleHeader>): (n: nat)
    ensures n % 2 == 0
    ensures n <= 2 * 0xFFFF * |samples|
    ensures n == 0 <==> forall k :: 0 <= k < |samples| ==> samples[k].lengthWords == 0
  {
    if samples == [] then 0
    else SampleDataSize(samples[..|samples| - 1]) + samples[|samples| - 1].lengthWords * 2
  }

  /**
   * How the fields of a layout relate to each other: the fixed 4-channel
   * geometry, pattern data of patternCount whole patterns right after the
   * id, then sample data, then (at the earliest) the end of the file.
   */
  predicate Consistent(l: ModLayout)
  {
    && l.channels == Channels
    && l.headerOffset == 0
    && l.idOffset == IdOffset
    && l.patternDataOffset == l.idOffset + 4
    && l.bytesPerRow == l.channels * 4
    && l.rowsPerPattern == RowsPerPattern
    && l.bytesPerPattern == l.rowsPerPattern * l.bytesPerRow
    && l.patternCount >= 1
    && l.patternDataSize == l.patternCount * l.bytesPerPattern
    && l.sampleDataOffset == l.patternDataOffset + l.patternDataSize
    && l.sampleDataSize >= 0
    && l.expectedMinFileSize == l.sampleDataOffset + l.sampleDataSize
  }

  /** The layout of a file with this header. */
  function LayoutOf(header: ModHeader): (l: ModLayout)
    ensures Consistent(l)
    ensures l.patternCount == PatternCount(header)
    ensures l.sampleDataSize == SampleDataSize(header.samples)
  {
    var patternCount := PatternCount(header);
    var patternDataSize := patternCount * BytesPerPattern;
    var sampleDataOffset := PatternDataOffset + patternDataSize;
    var sampleDataSize := SampleDataSize(header.samples);
    ModLayout(Channels, 0, IdOffset, PatternDataOffset, BytesPerRow, RowsPerPattern, BytesPerPattern,
              patternCount, patternDataSize, sampleDataOffset, sampleDataSize, sampleDataOffset + sampleDataSize)
  }

  /**
   * Computes the layout: fixed offsets and geometry, the pattern count from
   * the order table, and the sample data size summed over the sample
   * headers in order.
   */
  method ComputeLayout(header: ModHeader) returns (layout: ModLayout)
    ensures layout == LayoutOf(header)
  {
    var channels := 4;
    var headerOffset := 0;
    var idOffset := 1080;
    var patternDataOffset := idOffset + 4;

    var bytesPerRow := channels * 4;
    var rowsPerPattern := 64;
    var bytesPerPattern := rowsPerPattern * bytesPerRow;

    var patternCount := ComputePatternCount(header);
    var patternDataSize := patternCount * bytesPerPattern;

    var sampleDataOffset := patternDataOffset + patternDataSize;

    var sampleDataSize := 0;
    var i := 0;
    while i < |header.samples|
      invariant 0 <= i <= |header.samples|
      invariant sampleDataSize == SampleDataSize(header.samples[..i])
    {
      assert header.samples[..i + 1][..i] == header.samples[..i];
      sampleDataSize := sampleDataSize + header.samples[i].lengthWords * 2;
      i := i + 1;
    }
    assert header.samples[..i] == header.samples;

    var expectedMinFileSize := sampleDataOffset + sampleDataSize;

    return ModLayout(channels, headerOffset, idOffset, patternDataOffset, bytesPerRow, rowsPerPattern,
                     bytesPerPattern, patternCount, patternDataSize, sampleDataOffset, sampleDataSize,
                     expectedMinFileSize);
  }

  /**
   * The regions of a consistent layout are in order: pattern data starts at
   * 1084, holds at least one 1024-byte pattern, and sample data ends at or
   * after the point where it starts.
   */
  lemma LayoutOrdering(l: ModLayout)
    requires Consistent(l)
    ensures l.patternDataOffset == 1084 && l.bytesPerRow == 16 && l.bytesPerPattern == 1024
    ensures l.patternDataOffset < l.sampleDataOffset <= l.expectedMinFileSize
    ensures l.sampleDataOffset >= 2108
  {
    assert l.bytesPerPattern == 1024;
    assert l.patternDataSize == l.patternCount * 1024;
  }

  /**
   * The first pattern the song plays lies wholly inside the pattern data:
   * its 1024 bytes end at or before the start of sample data, so a file
   * that the validator does not flag holds all of it.
   */
  lemma FirstPatternInBounds(header: ModHeader, fileSize: int)
    requires header.songLength >= 1 && |header.orderTable| >= 1
    ensures var l := LayoutOf(header);
      var patternOffset := l.patternDataOffset + header.orderTable[0] * l.bytesPerPattern;
      && patternOffset + l.bytesPerPattern <= l.sampleDataOffset
      && (Issues(fileSize, l) == [] ==> patternOffset + l.bytesPerPattern <= fileSize)
  {
    var l := LayoutOf(header);
    var p := header.orderTable[0];
    assert p + 1 <= l.patternCount;
    assert (p + 1) * 1024 <= l.patternCount * 1024;
    IssuesEmpty(fileSize, l);
  }

  // ---------------------------------------------------------------------
  // Validation

  /** An advisory finding about a file's size; none of them stops decoding. */
  datatype Issue =
    | FileSmallerThanPatternDataOffset                          // not even the header fits
    | PatternDataTruncated                                      // the file ends inside the pattern data
    | SampleDataTruncated(expectedMinFileSize: int, fileSize: int) // the file ends inside the sample data

  /**
   * The issues for a file of fileSize bytes: a file shorter than the
   * header gets that one issue and nothing else; otherwise a file that
   * ends inside the pattern data, and (independently) one that ends before
   * the sample data does, each get an issue, in that order.
   */
  function Issues(fileSize: int, layout: ModLayout): seq<Issue>
  {
    if fileSize < layout.patternDataOffset then [FileSmallerThanPatternDataOffset]
    else
      (if fileSize < layout.sampleDataOffset then [PatternDataTruncated] else [])
      + (if fileSize < layout.expectedMinFileSize
         then [SampleDataTruncated(layout.expectedMinFileSize, fileSize)] else [])
  }

  /** Checks a file size against a layout and lists the issues found. */
  method ValidateLayout(fileSize: int, layout: ModLayout) returns (issues: seq<Issue>)
    ensures issues == Issues(fileSize, layout)
  {
    issues := [];

    if fileSize < layout.patternDataOffset {
      issues := issues + [FileSmallerThanPatternDataOffset];
      return issues;
    }

    if fileSize < layout.sampleDataOffset {
      issues := issues + [PatternDataTruncated];
    }

    if fileSize < layout.expectedMinFileSize {
      issues := issues + [SampleDataTruncated(layout.expectedMinFileSize, fileSize)];
    }

    return issues;
  }

  /**
   * At most two issues; a file shorter than the header gets exactly one;
   * a "pattern data" issue always comes first; the "sample data" issue
   * carries the expected minimum and the actual size.
   */
  lemma IssuesShape(fileSize: int, layout: ModLayout)
    ensures var issues := Issues(fileSize, layout);
      && |issues| <= 2
      && (fileSize < layout.patternDataOffset ==> issues == [FileSmallerThanPatternDataOffset])
      && (FileSmallerThanPatternDataOffset in issues <==> fileSize < layout.patternDataOffset)
      && (forall k :: 0 <= k < |issues| && issues[k] == PatternDataTruncated ==> k == 0)
      && (PatternDataTruncated in issues <==> layout.patternDataOffset <= fileSize < layout.sampleDataOffset)
      && (SampleDataTruncated(layout.expectedMinFileSize, fileSize) in issues <==>
            layout.patternDataOffset <= fileSize < layout.expectedMinFileSize)
  {
  }

  /**
   * For a consistent layout there are no issues exactly when the file is at
   * least expectedMinFileSize long: trailing bytes are never flagged.
   */
  lemma IssuesEmpty(fileSize: int, layout: ModLayout)
    requires Consistent(layout)
    ensures Issues(fileSize, layout) == [] <==> fileSize >= layout.expectedMinFileSize
  {
    LayoutOrdering(layout);
  }

  /**
   * For a consistent layout, a file that ends inside the pattern data
   * gets both issues, the pattern one first.
   */
  lemma IssuesBothTruncated(fileSize: int, layout: ModLayout)
    requires Consistent(layout)
    requires layout.patternDataOffset <= fileSize < layout.sampleDataOffset
    ensures Issues(fileSize, layout) == [PatternDataTruncated, SampleDataTruncated(layout.expectedMinFileSize, fileSize)]
  {
    LayoutOrdering(layout);
  }

  // ---------------------------------------------------------------------
  // A worked instance

  /** The sample data size is zero when every sample is empty. */
  lemma {:induction false} NoSampleData(samples: seq<SampleHeader>)
    requires forall k :: 0 <= k < |samples| ==> samples[k].lengthWords == 0
    ensures SampleDataSize(samples) == 0
  {
    if samples != [] {
      NoSampleData(samples[..|samples| - 1]);
    }
  }

  /**
   * A song of one position playing pattern 0, with 31 empty samples: one
   * pattern, sample data at 2108, nothing after it. A 2108-byte file has no
   * issues; a 2000-byte file ends inside the pattern data and gets both
   * truncation issues; a 100-byte file gets only the header issue.
   */
  lemma MinimalSong()
    ensures var empty := SampleHeader("", 0, 0, 0, 0, 0);
      var header := ModHeader("", 1, 0, seq(128, _ => 0), "M.K.", seq(31, _ => empty));
      var l := LayoutOf(header);
      && l.patternCount == 1 && l.patternDataSize == 1024 && l.sampleDataOffset == 2108
      && l.sampleDataSize == 0 && l.expectedMinFileSize == 2108
      && Issues(2108, l) == []
      && Issues(2000, l) == [PatternDataTruncated, SampleDataTruncated(2108, 2000)]
      && Issues(100, l) == [FileSmallerThanPatternDataOffset]
  {
    var empty := SampleHeader("", 0, 0, 0, 0, 0);
    var header := ModHeader("", 1, 0, seq(128, _ => 0), "M.K.", seq(31, _ => empty));
    NoSampleData(header.samples);
    assert MaxOrderIndex(header.orderTable, 1) == 0;
  }
}
