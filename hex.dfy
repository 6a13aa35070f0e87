// Hex formatting of source/host/hex.ts: zero-padded upper-case hex numbers
// and a classic hex dump, one line per row of bytes:
//
//   OOOOOOOO  HH HH HH HH HH HH HH HH  HH HH HH HH HH HH HH HH  AAAAAAAAAAAAAAAA
//
// an offset of at least 8 hex digits and two spaces, a three-character cell
// per byte with an extra space after the eighth, a space, and one
// character per byte in the ASCII column. Cells past the end of the data
// are blank, so every row has the same width.
module Hex {
  import opened Common

  // ---------------------------------------------------------------------
  // Hex numbers

  predicate IsHexDigit(c: char)
  {
    '0' <= c <= '9' || 'A' <= c <= 'F'
  }

  /**
   * The upper-case digit of a value below 16: '0'..'9', then 'A'..'F'.
   * Written as a binary decision on d rather than as an index into the
   * digit string, which is far cheaper for the verifier wherever digits
   * are unfolded; HexDigitTable states that the two agree.
   */
  function HexDigit(d: nat): (c: char)
    requires d < 16
    ensures IsHexDigit(c)
  {
    if d < 8 then
      (if d < 4 then (if d < 2 then (if d == 0 then '0' else '1') else (if d == 2 then '2' else '3'))
       else (if d < 6 then (if d == 4 then '4' else '5') else (if d == 6 then '6' else '7')))
    else
      (if d < 12 then (if d < 10 then (if d == 8 then '8' else '9') else (if d == 10 then 'A' else 'B'))
       else (if d < 14 then (if d == 12 then 'C' else 'D') else (if d == 14 then 'E' else 'F')))
  }

  /** HexDigit is the d-th character of the upper-case digit string. */
  lemma HexDigitTable(d: nat)
    requires d < 16
    ensures HexDigit(d) == "0123456789ABCDEF"[d]
  {
  }

  /** The value of an upper-case hex digit. */
  function DigitValue(c: char): nat
  {
    if '0' <= c <= '9' then c as int - '0' as int
    else if 'A' <= c <= 'F' then c as int - 'A' as int + 10
    else 0
  }

  /** The value of a string of hex digits, most significant first. */
  function HexValue(s: string): nat
  {
    if s == [] then 0 else HexValue(s[..|s| - 1]) * 16 + DigitValue(s[|s| - 1])
  }

  /**
   * Number.toString(16).toUpperCase() on a non-negative integer: its
   * upper-case hex digits, with no leading zero except for 0 itself.
   */
  function HexDigits(v: nat): (s: string)
    ensures 1 <= |s|
    decreases v
  {
    if v < 16 then [HexDigit(v)] else HexDigits(v / 16) + [HexDigit(v % 16)]
  }

  /** The digits are upper-case hex digits, and only 0 is written with a leading '0'. */
  lemma {:induction false} HexDigitsShape(v: nat)
    ensures var s := HexDigits(v);
      && (forall i :: 0 <= i < |s| ==> IsHexDigit(s[i]))
      && (s[0] == '0' <==> v == 0)
    decreases v
  {
    if v >= 16 {
      HexDigitsShape(v / 16);
    }
  }

  /** n '0' characters. */
  function Zeros(n: nat): (s: string)
    ensures |s| == n
  {
    if n == 0 then "" else "0" + Zeros(n - 1)
  }

  lemma {:induction false} ZerosAreZeros(n: nat)
    ensures forall i :: 0 <= i < n ==> Zeros(n)[i] == '0'
  {
    if n > 0 {
      ZerosAreZeros(n - 1);
    }
  }

  /**
   * toHex(value, width): the hex digits of value, left-padded with '0' to
   * width characters; a longer number keeps all its digits.
   */
  function PadHex(value: nat, width: int): string
  {
    var digits := HexDigits(value);
    (if |digits| < width then Zeros(width - |digits|) else "") + digits
  }

  lemma DigitRoundTrip(d: nat)
    requires d < 16
    ensures DigitValue(HexDigit(d)) == d
  {
  }

  /** Reading the digits back as hex gives the number. */
  lemma {:induction false} HexDigitsValue(v: nat)
    ensures HexValue(HexDigits(v)) == v
    decreases v
  {
    var s := HexDigits(v);
    if v < 16 {
      DigitRoundTrip(v);
      assert s[..0] == [];
    } else {
      HexDigitsValue(v / 16);
      DigitRoundTrip(v % 16);
      assert s[..|s| - 1] == HexDigits(v / 16);
    }
  }

  /** A leading zero does not change the value of a hex string. */
  lemma {:induction false} LeadingZeroValue(s: string)
    ensures HexValue("0" + s) == HexValue(s)
    decreases |s|
  {
    if s != [] {
      assert ("0" + s)[..|s|] == "0" + s[..|s| - 1];
      LeadingZeroValue(s[..|s| - 1]);
    }
  }

  /** Nor do any number of leading zeros. */
  lemma {:induction false} LeadingZerosValue(n: nat, s: string)
    ensures HexValue(Zeros(n) + s) == HexValue(s)
  {
    if n > 0 {
      assert Zeros(n) + s == "0" + (Zeros(n - 1) + s);
      LeadingZeroValue(Zeros(n - 1) + s);
      LeadingZerosValue(n - 1, s);
    } else {
      assert Zeros(0) + s == s;
    }
  }

  /**
   * The padded number: exactly max(width, digit count) characters, all hex
   * digits, zeros in front of the number's own digits, and read back as
   * hex it is the number again.
   */
  lemma PadHexSpec(value: nat, width: int)
    ensures var s := PadHex(value, width);
      var digits := HexDigits(value);
      && |s| == Max(width, |digits|)
      && (forall i :: 0 <= i < |s| ==> IsHexDigit(s[i]))
      && s[|s| - |digits|..] == digits
      && (forall i :: 0 <= i < |s| - |digits| ==> s[i] == '0')
      && HexValue(s) == value
  {
    var digits := HexDigits(value);
    HexDigitsValue(value);
    HexDigitsShape(value);
    if |digits| < width {
      LeadingZerosValue(width - |digits|, digits);
      ZerosAreZeros(width - |digits|);
    } else {
      assert PadHex(value, width) == digits;
    }
  }

  /** The two examples in the source's documentation. */
  lemma PadHexExamples()
    ensures PadHex(10, 2) == "0A"
    ensures PadHex(255, 4) == "00FF"
  {
    assert HexDigits(10) == "A";
    assert HexDigits(255) == "FF";
  }

  function Pow16(k: nat): (p: nat)
    ensures p >= 1
  {
    if k == 0 then 1 else 16 * Pow16(k - 1)
  }

  /** A number below 16^k has at most k hex digits. */
  lemma {:induction false} HexDigitsLength(v: nat, k: nat)
    requires 1 <= k && v < Pow16(k)
    ensures |HexDigits(v)| <= k
    decreases v
  {
    if v >= 16 {
      assert k >= 2;
      HexDigitsLength(v / 16, k - 1);
    }
  }

  /** Converts a number to upper-case hex, padded with '0' to width characters. */
  method ToHex(value: nat, width: int) returns (s: string)
    ensures s == PadHex(value, width)
  {
    ghost var digits := HexDigits(value);
    s := HexDigits(value);
    while |s| < width
      invariant |digits| <= |s| <= Max(width, |digits|)
      invariant s == Zeros(|s| - |digits|) + digits
      decreases width - |s|
    {
      s := "0" + s;
    }
    assert |s| == |digits| ==> Zeros(|s| - |digits|) + digits == digits;
  }

  // ---------------------------------------------------------------------
  // The hex dump

  /** The ASCII-column character of a byte: bytes 32..126 as themselves, the rest as '.'. */
  function AsciiChar(b: Byte): char
  {
    if 32 <= b <= 126 then CharOf(b) else '.'
  }

  /** A byte's high and low hex digits. */
  function ByteDigits(b: Byte): string
  {
    [HexDigit(b / 16), HexDigit(b % 16)]
  }

  /** The hex-column cell of the byte at index: its two digits and a space, or three spaces past the end. */
  function HexCell(bytes: seq<Byte>, index: nat): string
  {
    if index < |bytes| then ByteDigits(bytes[index]) + " " else "   "
  }

  /** The ASCII-column character at index, or a space past the end. */
  function AsciiCell(bytes: seq<Byte>, index: nat): char
  {
    if index < |bytes| then AsciiChar(bytes[index]) else ' '
  }

  /** The extra space that follows the eighth cell of a row. */
  function GroupGap(i: nat): string
  {
    if i == 7 then " " else ""
  }

  /**
   * The hex column of the first k cells of the row that starts at index
   * row, in the order the dump loop appends to it; ColumnsStep states it
   * cell by cell, through HexCell and GroupGap.
   */
  function HexColumn(bytes: seq<Byte>, row: nat, k: nat): string
  {
    if k == 0 then ""
    else
      var prev := HexColumn(bytes, row, k - 1);
      var index := row + k - 1;
      var filled := if index < |bytes| then prev + (ByteDigits(bytes[index]) + " ") else prev + "   ";
      if k - 1 == 7 then filled + " " else filled
  }

  /** The ASCII column of the first k cells of the row that starts at index row. */
  function AsciiColumn(bytes: seq<Byte>, row: nat, k: nat): string
  {
    if k == 0 then "" else AsciiColumn(bytes, row, k - 1) + [AsciiCell(bytes, row + k - 1)]
  }

  /** The columns of k + 1 cells extend those of k cells by cell k. */
  lemma ColumnsStep(bytes: seq<Byte>, row: nat, k: nat)
    ensures HexColumn(bytes, row, k + 1) == HexColumn(bytes, row, k) + HexCell(bytes, row + k) + GroupGap(k)
    ensures AsciiColumn(bytes, row, k + 1) == AsciiColumn(bytes, row, k) + [AsciiCell(bytes, row + k)]
  {
    var filled := HexColumn(bytes, row, k) + HexCell(bytes, row + k);
    assert filled + "" == filled;
    if row + k >= |bytes| {
      assert HexCell(bytes, row + k) == "   ";
    }
  }

  /** The dump line of the row that starts at index row. */
  function DumpLine(bytes: seq<Byte>, baseOffset: nat, bytesPerRow: nat, row: nat): string
  {
    PadHex(baseOffset + row, 8) + "  " + HexColumn(bytes, row, bytesPerRow) + " " + AsciiColumn(bytes, row, bytesPerRow)
  }

  /** The number of rows needed for n bytes, bytesPerRow to a row. */
  function RowCount(n: nat, bytesPerRow: nat): nat
    requires bytesPerRow > 0
  {
    if n == 0 then 0 else if n <= bytesPerRow then 1 else 1 + RowCount(n - bytesPerRow, bytesPerRow)
  }

  lemma RowCountStep(n: nat, bytesPerRow: nat)
    requires bytesPerRow > 0 && n > 0
    ensures n <= bytesPerRow ==> RowCount(n, bytesPerRow) == 1
    ensures n > bytesPerRow ==> RowCount(n, bytesPerRow) == 1 + RowCount(n - bytesPerRow, bytesPerRow)
  {
  }

  lemma NextRow(k: nat, bytesPerRow: nat)
    ensures (k + 1) * bytesPerRow == k * bytesPerRow + bytesPerRow
  {
  }

  lemma DumpLinesStep(bytes: seq<Byte>, baseOffset: nat, bytesPerRow: nat, k: nat)
    ensures DumpLines(bytes, baseOffset, bytesPerRow, k + 1)
      == DumpLines(bytes, baseOffset, bytesPerRow, k) + [DumpLine(bytes, baseOffset, bytesPerRow, k * bytesPerRow)]
  {
  }

  /** The first k dump lines. */
  function DumpLines(bytes: seq<Byte>, baseOffset: nat, bytesPerRow: nat, k: nat): (lines: seq<string>)
    ensures |lines| == k
  {
    if k == 0 then []
    else DumpLines(bytes, baseOffset, bytesPerRow, k - 1) + [DumpLine(bytes, baseOffset, bytesPerRow, (k - 1) * bytesPerRow)]
  }

  /** Array.join("\n"): the lines with a newline between consecutive ones. */
  function Join(lines: seq<string>): string
  {
    if |lines| == 0 then ""
    else if |lines| == 1 then lines[0]
    else lines[0] + "\n" + Join(lines[1..])
  }

  /**
   * The hex and ASCII columns of the row that starts at index row: the
   * inner loop of the dump, one cell per byte position of the row.
   */
  method RowColumns(bytes: seq<Byte>, row: nat, bytesPerRow: nat) returns (hexPart: string, asciiPart: string)
    ensures hexPart == HexColumn(bytes, row, bytesPerRow)
    ensures asciiPart == AsciiColumn(bytes, row, bytesPerRow)
  {
    hexPart := "";
    asciiPart := "";
    var i := 0;
    while i < bytesPerRow
      invariant 0 <= i <= bytesPerRow
      invariant hexPart == HexColumn(bytes, row, i)
      invariant asciiPart == AsciiColumn(bytes, row, i)
    {
      var index := row + i;
      if index < |bytes| {
        var b := bytes[index];
        var h := ToHex(b, 2);
        ByteHex(b);
        hexPart := hexPart + (h + " ");
        if b >= 32 && b <= 126 {
          asciiPart := asciiPart + [CharOf(b)];
        } else {
          asciiPart := asciiPart + ".";
        }
      } else {
        hexPart := hexPart + "   ";
        asciiPart := asciiPart + " ";
      }
      if i == 7 {
        hexPart := hexPart + " ";
      }
      i := i + 1;
    }
  }

  /**
   * Formats bytes as a hex dump, bytesPerRow bytes to a line, offsets
   * counted from baseOffset. The source's loop advances by bytesPerRow, so
   * it needs bytesPerRow > 0 to end.
   */
  method HexDump(bytes: seq<Byte>, baseOffset: nat, bytesPerRow: nat) returns (s: string)
    requires bytesPerRow > 0
    ensures s == Join(DumpLines(bytes, baseOffset, bytesPerRow, RowCount(|bytes|, bytesPerRow)))
  {
    var lines: seq<string> := [];
    var row := 0;
    while row < |bytes|
      invariant row == |lines| * bytesPerRow
      invariant lines == DumpLines(bytes, baseOffset, bytesPerRow, |lines|)
      invariant RowCount(|bytes|, bytesPerRow) == |lines| + (if row < |bytes| then RowCount(|bytes| - row, bytesPerRow) else 0)
      decreases |bytes| - row
    {
      var offset := baseOffset + row;
      var line := ToHex(offset, 8);
      line := line + "  ";
      var hexPart, asciiPart := RowColumns(bytes, row, bytesPerRow);
      line := line + hexPart + " " + asciiPart;
      assert line == DumpLine(bytes, baseOffset, bytesPerRow, row);
      DumpLinesStep(bytes, baseOffset, bytesPerRow, |lines|);
      RowCountStep(|bytes| - row, bytesPerRow);
      NextRow(|lines|, bytesPerRow);
      lines := lines + [line];
      row := row + bytesPerRow;
    }
    s := Join(lines);
  }

  // ---------------------------------------------------------------------
  // Properties of the dump

  /**
   * Rows are a ceiling division: enough rows to hold n bytes, and one
   * fewer would not be; no rows at all exactly for no bytes.
   */
  lemma {:induction false} RowCountSpec(n: nat, bytesPerRow: nat)
    requires bytesPerRow > 0
    ensures RowCount(n, bytesPerRow) * bytesPerRow >= n
    ensures n > 0 ==> (RowCount(n, bytesPerRow) - 1) * bytesPerRow < n
    ensures RowCount(n, bytesPerRow) == 0 <==> n == 0
    decreases n
  {
    if n > bytesPerRow {
      var r := RowCount(n - bytesPerRow, bytesPerRow);
      RowCountSpec(n - bytesPerRow, bytesPerRow);
      NextRow(r, bytesPerRow);
      NextRow(r - 1, bytesPerRow);
    }
  }

  /** Line j of the dump shows the row that starts at byte j * bytesPerRow. */
  lemma {:induction false} DumpLinesAt(bytes: seq<Byte>, baseOffset: nat, bytesPerRow: nat, k: nat, j: nat)
    requires j < k
    ensures DumpLines(bytes, baseOffset, bytesPerRow, k)[j] == DumpLine(bytes, baseOffset, bytesPerRow, j * bytesPerRow)
    decreases k
  {
    if j < k - 1 {
      DumpLinesAt(bytes, baseOffset, bytesPerRow, k - 1, j);
    }
  }

  /**
   * toHex(b, 2) on a byte is its high digit then its low digit, and read
   * back as hex it is the byte.
   */
  lemma ByteHex(b: Byte)
    ensures PadHex(b, 2) == ByteDigits(b)
    ensures HexValue(PadHex(b, 2)) == b
  {
    PadHexSpec(b, 2);
    if b < 16 {
      assert HexDigits(b) == [HexDigit(b)];
      assert Zeros(1) == [HexDigit(0)];
    } else {
      assert HexDigits(b / 16) == [HexDigit(b / 16)];
    }
  }

  /** Where cell i starts in the hex column: three characters a cell, one more after the eighth. */
  function CellStart(i: nat): nat
  {
    3 * i + (if i >= 8 then 1 else 0)
  }

  /** The hex column of k cells is CellStart(k) characters long. */
  lemma {:induction false} HexColumnWidth(bytes: seq<Byte>, row: nat, k: nat)
    ensures |HexColumn(bytes, row, k)| == CellStart(k)
    decreases k
  {
    if k > 0 {
      HexColumnWidth(bytes, row, k - 1);
    }
  }

  /** A column of j cells is the start of every longer column of the same row. */
  lemma {:induction false} HexColumnPrefix(bytes: seq<Byte>, row: nat, j: nat, k: nat)
    requires j <= k
    ensures |HexColumn(bytes, row, j)| <= |HexColumn(bytes, row, k)|
    ensures HexColumn(bytes, row, k)[..|HexColumn(bytes, row, j)|] == HexColumn(bytes, row, j)
    decreases k
  {
    if j < k {
      var m := k - 1;
      HexColumnPrefix(bytes, row, j, m);
      ColumnsStep(bytes, row, m);
      PrefixExtends(HexColumn(bytes, row, j), HexColumn(bytes, row, m), HexCell(bytes, row + m), GroupGap(m));
      assert m + 1 == k;
    } else {
      var short := HexColumn(bytes, row, j);
      assert short[..|short|] == short;
    }
  }

  /** A prefix of p is a prefix of p extended by q and r. */
  lemma PrefixExtends(a: string, p: string, q: string, r: string)
    requires |a| <= |p| && p[..|a|] == a
    ensures |a| <= |p + q + r| && (p + q + r)[..|a|] == a
  {
    assert (p + q + r)[..|a|] == p[..|a|];
  }

  /**
   * Cell i of the hex column sits at CellStart(i): the byte's two digits
   * and a space, or three spaces past the end of the data.
   */
  lemma HexColumnCells(bytes: seq<Byte>, row: nat, k: nat, i: nat)
    requires i < k
    ensures CellStart(i) + 3 <= |HexColumn(bytes, row, k)|
    ensures HexColumn(bytes, row, k)[CellStart(i)..CellStart(i) + 3] == HexCell(bytes, row + i)
  {
    var upTo := HexColumn(bytes, row, i + 1);
    CellAtEnd(bytes, row, i);
    HexColumnPrefix(bytes, row, i + 1, k);
    SliceOfSlice(HexColumn(bytes, row, k), 0, |upTo|, CellStart(i), CellStart(i) + 3);
  }

  /** Cell i is the last cell of the column of i + 1 cells, before any group gap. */
  lemma CellAtEnd(bytes: seq<Byte>, row: nat, i: nat)
    ensures CellStart(i) + 3 <= |HexColumn(bytes, row, i + 1)|
    ensures HexColumn(bytes, row, i + 1)[CellStart(i)..CellStart(i) + 3] == HexCell(bytes, row + i)
  {
    var prev := HexColumn(bytes, row, i);
    var cell := HexCell(bytes, row + i);
    var a := CellStart(i);
    ColumnsStep(bytes, row, i);
    HexColumnWidth(bytes, row, i);
    SliceOfAppendLeft(prev + cell, GroupGap(i), a, a + 3);
    SliceOfAppendRight(prev, cell);
  }

  /** A cell inside the data shows the byte in two hex digits. */
  lemma HexCellValue(bytes: seq<Byte>, index: nat)
    requires index < |bytes|
    ensures var cell := HexCell(bytes, index);
      |cell| == 3 && HexValue(cell[..2]) == bytes[index] && cell[2] == ' '
  {
    var cell := HexCell(bytes, index);
    ByteHex(bytes[index]);
    assert cell[..2] == PadHex(bytes[index], 2);
  }

  /** The ASCII column has one character per cell: the byte's character, or a space past the end. */
  lemma {:induction false} AsciiColumnCells(bytes: seq<Byte>, row: nat, k: nat)
    ensures |AsciiColumn(bytes, row, k)| == k
    ensures forall i :: 0 <= i < k ==> AsciiColumn(bytes, row, k)[i] == AsciiCell(bytes, row + i)
    decreases k
  {
    if k > 0 {
      AsciiColumnCells(bytes, row, k - 1);
    }
  }

  /**
   * The shape of a dump line: it starts with the padded offset and two
   * spaces, its last bytesPerRow characters are the ASCII column, and its
   * width depends only on the offset's digit count and bytesPerRow.
   */
  lemma LineLayout(bytes: seq<Byte>, baseOffset: nat, bytesPerRow: nat, row: nat)
    ensures var line := DumpLine(bytes, baseOffset, bytesPerRow, row);
      var offset := PadHex(baseOffset + row, 8);
      && |line| == |offset| + 2 + CellStart(bytesPerRow) + 1 + bytesPerRow
      && line[..|offset| + 2] == offset + "  "
      && line[|line| - bytesPerRow..] == AsciiColumn(bytes, row, bytesPerRow)
  {
    var offset := PadHex(baseOffset + row, 8);
    var hex := HexColumn(bytes, row, bytesPerRow);
    var ascii := AsciiColumn(bytes, row, bytesPerRow);
    assert DumpLine(bytes, baseOffset, bytesPerRow, row) == offset + "  " + hex + " " + ascii;
    LineParts(offset, hex, ascii);
    HexColumnWidth(bytes, row, bytesPerRow);
    AsciiColumnCells(bytes, row, bytesPerRow);
    PadHexSpec(baseOffset + row, 8);
  }

  /**
   * While offsets stay below 16^8 the offset takes exactly 8 digits, so
   * every line of the dump has the same width.
   */
  lemma LineWidth(bytes: seq<Byte>, baseOffset: nat, bytesPerRow: nat, row: nat)
    requires baseOffset + row < Pow16(8)
    ensures |DumpLine(bytes, baseOffset, bytesPerRow, row)| == 11 + CellStart(bytesPerRow) + bytesPerRow
  {
    LineLayout(bytes, baseOffset, bytesPerRow, row);
    PadHexSpec(baseOffset + row, 8);
    HexDigitsLength(baseOffset + row, 8);
  }

  /** Where the parts of offset + "  " + hex + " " + ascii lie. */
  lemma LineParts(offset: string, hex: string, ascii: string)
    ensures var line := offset + "  " + hex + " " + ascii;
      && |line| == |offset| + 3 + |hex| + |ascii|
      && line[..|offset| + 2] == offset + "  "
      && line[|line| - |ascii|..] == ascii
  {
    var line := offset + "  " + hex + " " + ascii;
    SliceOfAppendRight(offset + "  " + hex + " ", ascii);
    assert line[..|offset| + 2] == (offset + "  " + hex + " ")[..|offset| + 2];
    assert (offset + "  " + hex + " ")[..|offset| + 2] == (offset + "  " + hex)[..|offset| + 2];
    assert (offset + "  " + hex)[..|offset| + 2] == offset + "  ";
  }

  // ---------------------------------------------------------------------
  // Lines and newlines

  /** The position of the first newline in s. */
  function FirstNewline(s: string): (i: nat)
    requires '\n' in s
    ensures i < |s| && s[i] == '\n'
    ensures forall m :: 0 <= m < i ==> s[m] != '\n'
  {
    if s[0] == '\n' then 0
    else
      assert s == [s[0]] + s[1..];
      1 + FirstNewline(s[1..])
  }

  /** String.split("\n"): the pieces of s between newlines. */
  function SplitLines(s: string): (lines: seq<string>)
    decreases |s|
  {
    if '\n' !in s then [s]
    else var i := FirstNewline(s); [s[..i]] + SplitLines(s[i + 1..])
  }

  /** The first newline of l + "\n" + rest is the one after l, when l has none. */
  lemma FirstNewlineAfter(l: string, rest: string)
    requires '\n' !in l
    ensures FirstNewline(l + "\n" + rest) == |l|
  {
    var s := l + "\n" + rest;
    assert s[|l|] == '\n';
    var i := FirstNewline(s);
    assert forall m :: 0 <= m < |l| ==> s[m] == l[m];
  }

  /** Splitting a join of newline-free lines gives the lines back. */
  lemma {:induction false} SplitJoin(lines: seq<string>)
    requires |lines| >= 1
    requires forall k :: 0 <= k < |lines| ==> '\n' !in lines[k]
    ensures SplitLines(Join(lines)) == lines
    decreases |lines|
  {
    if |lines| > 1 {
      SplitStep(lines[0], Join(lines[1..]));
      SplitJoin(lines[1..]);
      assert [lines[0]] + lines[1..] == lines;
    }
  }

  /** Splitting l + "\n" + rest, for a newline-free l, gives l and then the pieces of rest. */
  lemma SplitStep(l: string, rest: string)
    requires '\n' !in l
    ensures SplitLines(l + "\n" + rest) == [l] + SplitLines(rest)
  {
    var s := l + "\n" + rest;
    FirstNewlineAfter(l, rest);
    assert s[..|l|] == l;
    assert s[|l| + 1..] == rest;
  }

  /** No character of a dump line is a newline. */
  lemma LineHasNoNewline(bytes: seq<Byte>, baseOffset: nat, bytesPerRow: nat, row: nat)
    ensures '\n' !in DumpLine(bytes, baseOffset, bytesPerRow, row)
  {
    var offset := PadHex(baseOffset + row, 8);
    var hex := HexColumn(bytes, row, bytesPerRow);
    var ascii := AsciiColumn(bytes, row, bytesPerRow);
    assert DumpLine(bytes, baseOffset, bytesPerRow, row) == offset + "  " + hex + " " + ascii;
    PadHexSpec(baseOffset + row, 8);
    assert '\n' !in offset;
    HexColumnNoNewline(bytes, row, bytesPerRow);
    AsciiColumnNoNewline(bytes, row, bytesPerRow);
  }

  lemma {:induction false} AsciiColumnNoNewline(bytes: seq<Byte>, row: nat, k: nat)
    ensures '\n' !in AsciiColumn(bytes, row, k)
    decreases k
  {
    if k > 0 {
      AsciiColumnNoNewline(bytes, row, k - 1);
    }
  }

  lemma {:induction false} HexColumnNoNewline(bytes: seq<Byte>, row: nat, k: nat)
    ensures '\n' !in HexColumn(bytes, row, k)
    decreases k
  {
    if k > 0 {
      var m := k - 1;
      ColumnsStep(bytes, row, m);
      HexColumnNoNewline(bytes, row, m);
      HexCellNoNewline(bytes, row + m);
      NoNewlineInJoin(HexColumn(bytes, row, m), HexCell(bytes, row + m), GroupGap(m));
      assert m + 1 == k;
    }
  }

  lemma NoNewlineInJoin(a: string, b: string, c: string)
    requires '\n' !in a && '\n' !in b && '\n' !in c
    ensures '\n' !in a + b + c
  {
  }

  lemma HexCellNoNewline(bytes: seq<Byte>, index: nat)
    ensures '\n' !in HexCell(bytes, index)
  {
    if index < |bytes| {
      var b := bytes[index];
      assert HexCell(bytes, index) == [HexDigit(b / 16), HexDigit(b % 16), ' '];
    }
  }

  /**
   * The dump read back line by line: splitting it at newlines gives one
   * line per row, line j showing the row at byte j * bytesPerRow; no bytes
   * give the empty string.
   */
  lemma DumpSplits(bytes: seq<Byte>, baseOffset: nat, bytesPerRow: nat)
    requires bytesPerRow > 0
    ensures var n := RowCount(|bytes|, bytesPerRow);
      var s := Join(DumpLines(bytes, baseOffset, bytesPerRow, n));
      && (s == "" <==> bytes == [])
      && (bytes != [] ==>
            && |SplitLines(s)| == n
            && forall j :: 0 <= j < n ==> SplitLines(s)[j] == DumpLine(bytes, baseOffset, bytesPerRow, j * bytesPerRow))
  {
    var n := RowCount(|bytes|, bytesPerRow);
    var lines := DumpLines(bytes, baseOffset, bytesPerRow, n);
    RowCountSpec(|bytes|, bytesPerRow);
    forall j | 0 <= j < n
      ensures lines[j] == DumpLine(bytes, baseOffset, bytesPerRow, j * bytesPerRow)
      ensures '\n' !in lines[j]
    {
      DumpLinesAt(bytes, baseOffset, bytesPerRow, n, j);
      LineHasNoNewline(bytes, baseOffset, bytesPerRow, j * bytesPerRow);
    }
    if bytes != [] {
      SplitJoin(lines);
      LineLayout(bytes, baseOffset, bytesPerRow, 0);
      JoinNonEmpty(lines);
    }
  }

  lemma JoinNonEmpty(lines: seq<string>)
    requires |lines| >= 1 && lines[0] != ""
    ensures Join(lines) != ""
  {
    if |lines| > 1 {
      assert |Join(lines)| >= |lines[0]|;
    }
  }

  /** The offset column of the first line of a dump that starts at offset 0. */
  lemma OffsetExample()
    ensures PadHex(0, 8) == "00000000"
  {
    assert HexDigits(0) == "0";
    assert Zeros(7) == "0000000";
  }

  /** Three bytes in a four-byte row: the missing cell is blank. */
  lemma HexColumnExample()
    ensures HexColumn([72, 105, 0], 0, 4) == "48 69 00    "
  {
    var b: seq<Byte> := [72, 105, 0];
    assert ByteDigits(72) == "48" && ByteDigits(105) == "69" && ByteDigits(0) == "00";
    assert HexColumn(b, 0, 2) == "48 69 ";
  }

  /** Printable bytes appear as themselves, others as '.', missing ones as ' '. */
  lemma AsciiColumnExample()
    ensures AsciiColumn([72, 105, 0], 0, 4) == "Hi. "
  {
    assert CharOf(72) == 'H' && CharOf(105) == 'i';
  }

  /**
   * A worked line: "Hi" and a NUL, four bytes to a row, from offset 0;
   * the missing fourth byte is blank in both columns.
   */
  lemma DumpLineExample()
    ensures DumpLine([72, 105, 0], 0, 4, 0) == "00000000  48 69 00     Hi. "
  {
    OffsetExample();
    HexColumnExample();
    AsciiColumnExample();
  }
}
