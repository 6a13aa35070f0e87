# ProTracker MOD header, layout, cell and hex-dump model

A Dafny model of the decoding core of a small ProTracker MOD player written in
TypeScript. The core covers the following:

- **The byte reader** (`IoReader`). It is a cursor over an immutable byte buffer, with bounds-checked reads: `u8`, big-endian `u16be`, raw `bytes` and NUL-terminated fixed-width `str`, plus `seek`, `tell`, `size` and `remaining`. The model is a class with `const data` and `var position`. Every method states the new cursor and the result, including the failure cases, where the cursor does not move.
- **The 1084-byte "M.K." header** (`Header`, `HeaderEncoding`). `ParseHeader` drives a `Reader` through the 20-byte title, the 31 sample records of 30 bytes, the song length, the restart position, the 128-byte order table and the 4-byte id.
  - It is proved equal to a pure decoding function `DecodeHeader`: `OutOfRange` when fewer than 1084 bytes remain, `UnsupportedFormat` when the id is not `M.K.`, and the fields otherwise.
  - On an `OutOfRange` failure, the cursor stops at the start of the first field that does not fit; when the id is wrong, it is 1084 bytes on, just past the id.
  - An encoder `EncodeHeader` is the partner: decoding what it writes gives the header back.
  - `ComputePatternCount` scans the first `songLength` order-table entries for the largest index and adds one.
- **The structural layout** (`Layout`). `ComputeLayout` gives the fixed offsets, the pattern data (1024 bytes a pattern) and the sample data (each length in words, doubled). `ValidateLayout` reports advisory issues about a file size. Both are proved against pure functions (`LayoutOf`, `Issues`), and properties of those are proved as lemmas.
- **Pattern cells** (`Cell`). `DecodeCell` unpacks the 4-byte bitfield into sample, period, effect and parameter. It is proved bit-exact, and `EncodeCell` is its inverse in both directions.
- **The hex formatter** (`Hex`).
  - `ToHex` pads the upper-case hex digits with `0` to a width. It is proved equal to `PadHex`, which is proved to read back as the value.
  - `HexDump` is the nested-loop dump. It is proved equal to the newline-join of `DumpLines`.
  - Lemmas give the dump's meaning:
    - one line per started row;
    - line `j` shows the row at byte `j * bytesPerRow`;
    - each line is the offset, two spaces, the hex column with a cell at `CellStart(i)` reading back as byte `i`, a space, and the ASCII column;
    - splitting the dump at newlines gives the lines back.

Integers are unbounded. Bytes are the subset type `Byte` (0..255), except in the cell decoder, which works on `bv8`/`bv16` to mirror the source's masks and shifts. Strings are `seq<char>`, with one character per byte (`String.fromCharCode` on a byte).

A file of the minimal one-pattern song that is 2000 bytes long gets two issues from `validateLayout`. 2000 is below the sample-data offset (2108), so "pattern data truncated" is reported. The check against `expectedMinFileSize` (also 2108) is made independently and fires too. The model follows the code, and `Layout.MinimalSong` states both issues.

## Model

| member | source | states |
|---|---|---|
| IoReader.Be16 | source/engine/io/reader.ts:84-92 | the 16-bit value's high byte is the first byte read and its low byte the second (big-endian) |
| IoReader.CStringShape | source/engine/io/reader.ts:117-128 | the text of a string field has no NUL, its characters are the field's bytes, and it stops at the first NUL or at the end of the field |
| IoReader.CStringUpTo | source/engine/io/reader.ts:117-128 | with the first NUL at n (or none), the text is exactly the first n bytes as characters |
| IoReader.Reader.constructor | source/engine/io/reader.ts:29-32 | a new reader is over the given bytes with the cursor at 0 |
| IoReader.Reader.Tell | source/engine/io/reader.ts:37-39 | the cursor, which always lies between 0 and the size |
| IoReader.Reader.Size | source/engine/io/reader.ts:56-58 | the size is the length of the buffer; the buffer is a constant field, so the size never changes over the reader's life |
| IoReader.Reader.Remaining | source/engine/io/reader.ts:56-65 | the bytes left are size minus cursor, between 0 and the size |
| IoReader.Reader.Seek | source/engine/io/reader.ts:46-51 | any position from 0 to the size inclusive is accepted and becomes the cursor; any other fails with OutOfRange and leaves the cursor alone |
| IoReader.Reader.U8 | source/engine/io/reader.ts:71-78 | returns the byte at the cursor and advances by 1, or fails with OutOfRange without moving |
| IoReader.Reader.U16BE | source/engine/io/reader.ts:84-92 | returns the big-endian value of the two bytes at the cursor and advances by 2, or fails with OutOfRange without moving |
| IoReader.Reader.Bytes | source/engine/io/reader.ts:100-108 | a negative count is InvalidArgument, too few bytes is OutOfRange (cursor unchanged); otherwise the count bytes at the cursor, and the cursor moves past them |
| IoReader.Reader.Str | source/engine/io/reader.ts:117-128 | same failures as Bytes; otherwise consumes all count bytes and returns the characters before the first NUL |
| Header.DecodeFields | source/engine/protracker/mod/header.ts:46-84 | a decoded header has 31 samples, a 128-entry order table, a title of at most 20 and an id of at most 4 characters |
| Header.ReadSampleHeader | source/engine/protracker/mod/header.ts:52-59 | succeeds exactly when 30 bytes remain, returning the record's decoding and advancing 30; on failure the cursor is at the start of a field that does not fit |
| Header.ReadSampleHeaders | source/engine/protracker/mod/header.ts:49-62 | succeeds exactly when the 31 records fit (950 bytes from the header's start), leaving the cursor at offset 950 with record k decoded from bytes 20+30k to 50+30k; on failure the cursor is at a field that does not fit |
| Header.ParseHeader | source/engine/protracker/mod/header.ts:46-84 | the result is DecodeHeader of the bytes at the cursor; on success or a wrong id the cursor is 1084 further on; on OutOfRange it stops at the first field that does not fit |
| Header.MaxOrderIndex | source/engine/protracker/mod/header.ts:91-96 | the result bounds every one of the first n order entries and is one of them (or 0) |
| Header.ComputePatternCount | source/engine/protracker/mod/header.ts:90-99 | the count is between 1 and 256, exceeds every played pattern index, and is one more than a played index (or 1) |
| Header.PatternCountReadsPrefix | source/engine/protracker/mod/header.ts:93-96 | the pattern count depends only on the first songLength order entries |
| Header.MaxOrderIndexAgree | source/engine/protracker/mod/header.ts:93-96 | two order tables that agree on the first n positions have the same maximum over them |
| Header.PatternCountExample | source/engine/protracker/mod/header.ts:86-99 | a song playing patterns 5, 2, 9 stores ten patterns |
| HeaderEncoding.MagicAccepted | source/engine/protracker/mod/header.ts:69-74 | four id bytes read as "M.K." exactly when they are the bytes M . K . |
| HeaderEncoding.DecodeHeaderSucceeds | source/engine/protracker/mod/header.ts:46-84 | parsing succeeds exactly when 1084 bytes remain and the id bytes are M . K .; too few bytes give OutOfRange; any other id in a long enough buffer, and only that, gives UnsupportedFormat |
| HeaderEncoding.DecodedFieldOffsets | source/engine/protracker/mod/header.ts:47-69 | each field of a decoded header comes from its fixed offset: title at 0, sample i at 20+30i, song length at 950, restart at 951, order table at 952, id at 1080 |
| HeaderEncoding.TextRoundTrip | source/engine/io/reader.ts:117-128 | a NUL-free text written NUL-padded into a field reads back unchanged |
| HeaderEncoding.SampleRoundTrip | source/engine/protracker/mod/header.ts:52-59 | a sample record written by the encoder decodes to the same sample header |
| HeaderEncoding.HeaderRoundTrip | source/engine/protracker/mod/header.ts:46-84 | an encoded header, followed by any bytes, parses back to the same header |
| Layout.SampleDataSize | source/engine/protracker/mod/layout.ts:65-69 | the declared sample data is even, at most 2·65535 bytes a sample, and zero exactly when every sample is empty |
| Layout.LayoutOf | source/engine/protracker/mod/layout.ts:48-92 | the layout is consistent (fixed geometry, pattern data after the id, sample data after it) with the header's pattern count and sample data size |
| Layout.ComputeLayout | source/engine/protracker/mod/layout.ts:48-92 | computes exactly LayoutOf(header), summing sample lengths in header order |
| Layout.LayoutOrdering | source/engine/protracker/mod/layout.ts:50-71 | pattern data starts at 1084, rows are 16 bytes and patterns 1024; sample data starts at 2108 or later, and the regions are in order |
| Layout.FirstPatternInBounds | source/engine/protracker/mod/layout.ts:60-71 | the first pattern played lies wholly before sample data, and inside any file the validator does not flag |
| Layout.ValidateLayout | source/engine/protracker/mod/layout.ts:98-119 | returns exactly Issues(fileSize, layout) |
| Layout.IssuesShape | source/engine/protracker/mod/layout.ts:98-119 | at most two issues; a file shorter than 1084 gets only that issue; each truncation issue appears exactly when its condition holds, the pattern one first |
| Layout.IssuesEmpty | source/engine/protracker/mod/layout.ts:98-119 | no issues exactly when the file is at least expectedMinFileSize long, so trailing bytes are never flagged |
| Layout.IssuesBothTruncated | source/engine/protracker/mod/layout.ts:106-115 | a file that ends inside the pattern data gets both truncation issues, in order |
| Layout.NoSampleData | source/engine/protracker/mod/layout.ts:65-69 | empty samples declare no sample data |
| Layout.MinimalSong | source/engine/protracker/mod/layout.ts:98-119 | the one-pattern song with empty samples needs 2108 bytes; 2108 gives no issues, 2000 gives both truncation issues, 100 only the header issue |
| Cell.DecodeCell | source/engine/protracker/mod/cell.ts:42-61 | sample is byte 0's high nibble then byte 2's high nibble; period is byte 0's low nibble then byte 1 (12 bits); effect is byte 2's low nibble; parameter is byte 3 |
| Cell.EncodeDecode | source/engine/protracker/mod/cell.ts:13-25 | packing a decoded cell gives the four bytes back |
| Cell.DecodeEncode | source/engine/protracker/mod/cell.ts:13-25 | any cell with a 12-bit period and 4-bit effect decodes back from its packing |
| Cell.DecodeExamples | source/engine/protracker/mod/cell.ts:42-61 | three worked cells, including all-zero and all-ones bytes |
| Hex.HexDigitTable | source/host/hex.ts:106 | digit d is the d-th character of "0123456789ABCDEF", the upper-cased output of toString(16) |
| Hex.HexDigitsShape | source/host/hex.ts:106 | the digits of a number are upper-case hex digits with no leading zero except for 0 itself |
| Hex.HexDigitsValue | source/host/hex.ts:106 | the hex digits of a number read back as that number |
| Hex.LeadingZerosValue | source/host/hex.ts:109-111 | prepending zeros does not change a hex string's value |
| Hex.PadHexSpec | source/host/hex.ts:105-114 | the padded string has max(width, digit count) characters, all hex digits, zeros before the number's own digits, and reads back as the value |
| Hex.PadHexExamples | source/host/hex.ts:101-104 | toHex(10, 2) is "0A" and toHex(255, 4) is "00FF" |
| Hex.HexDigitsLength | source/host/hex.ts:105-114 | a number below 16^k needs at most k digits, so padding to k gives exactly k characters |
| Hex.ToHex | source/host/hex.ts:105-114 | the loop's result is PadHex(value, width) |
| Hex.ByteHex | source/host/hex.ts:64 | toHex of a byte with width 2 is its high digit then its low digit, and reads back as the byte |
| Hex.RowColumns | source/host/hex.ts:54-84 | the inner loop builds the row's hex column and ASCII column |
| Hex.HexDump | source/host/hex.ts:28-95 | the dump is the newline-join of one line per started row, line j for the row at j·bytesPerRow |
| Hex.RowCountSpec | source/host/hex.ts:38 | the row loop runs ceil(n / bytesPerRow) times: enough rows for every byte, one fewer would not do, none for no bytes |
| Hex.DumpLinesAt | source/host/hex.ts:38-91 | line j shows the row starting at byte j·bytesPerRow |
| Hex.HexColumnWidth | source/host/hex.ts:54-84 | a hex column of k cells is 3k characters, plus one once the eighth cell is passed |
| Hex.HexColumnCells | source/host/hex.ts:59-83 | cell i of the hex column is at CellStart(i): the byte's two digits and a space, or three spaces past the end of the data |
| Hex.HexCellValue | source/host/hex.ts:59-64 | a cell inside the data reads back as its byte, followed by a space |
| Hex.AsciiColumnCells | source/host/hex.ts:66-77 | the ASCII column has one character per cell: the byte's character if printable (32..126), '.' if not, ' ' past the end |
| Hex.LineLayout | source/host/hex.ts:42-87 | a line starts with the padded offset and two spaces, ends with the ASCII column, and has a fixed width for a given offset length |
| Hex.LineWidth | source/host/hex.ts:42-87 | while offsets stay below 16^8 every line is 11 + CellStart(bytesPerRow) + bytesPerRow characters |
| Hex.LineHasNoNewline | source/host/hex.ts:42-87 | no dump line contains a newline |
| Hex.SplitJoin | source/host/hex.ts:94 | splitting a join of newline-free lines at newlines gives the lines back |
| Hex.JoinNonEmpty | source/host/hex.ts:94 | a join whose first line is non-empty is non-empty |
| Hex.DumpSplits | source/host/hex.ts:28-95 | the dump is empty exactly for no bytes; otherwise splitting it at newlines gives one line per row, line j for the row at j·bytesPerRow |
| Hex.OffsetExample | source/host/hex.ts:42-45 | the offset column of a dump from offset 0 is "00000000" |
| Hex.HexColumnExample | source/host/hex.ts:54-84 | bytes 48 69 00 in a four-byte row give "48 69 00    " |
| Hex.AsciiColumnExample | source/host/hex.ts:66-77 | the same bytes give "Hi. " |
| Hex.DumpLineExample | source/host/hex.ts:42-90 | the whole line for those bytes from offset 0 is "00000000  48 69 00     Hi. " |

## Left out

- Error messages are not modelled as text. Thrown errors become the kinds `OutOfRange`, `InvalidArgument` and `UnsupportedFormat`, returned in a `Result` or `Outcome`. Both `seek` failures are `OutOfRange`.
- Layout.ValidateLayout: issues are the tags of `Issue` rather than English sentences. The truncated-sample-data issue carries the two numbers that its message prints.
- IoReader.Reader.constructor: takes the bytes as a sequence, not an `ArrayBuffer`.
- IoReader.Reader.Bytes: returns a copy of the bytes. The source's `subarray` view shares memory with the buffer; since the buffer is never written, only identity is lost.
- JavaScript numbers are modelled as mathematical integers. Counts, positions and widths that are not whole numbers, or that are beyond 2^53, are not modelled.
- Hex.ToHex: the value is a `nat`. The sign and fraction that `toString(16)` would print for a negative or non-integer value are not modelled.
- Hex.HexDump: the defaults `baseOffset = 0` and `bytesPerRow = 16` are not modelled; callers pass both values, and every caller passes 16. The model requires `bytesPerRow > 0`, because for non-empty input with a `bytesPerRow` of 0 or less the source's row loop never ends. This requirement also excludes an empty buffer with such a `bytesPerRow`. The source returns "" for that case, because its row loop does not run at all. The model does not cover it.
- Hex.RowColumns, Header.ReadSampleHeader and Header.ReadSampleHeaders: the source writes each of them inline. Hex.RowColumns is the inner loop over a row's cells, which sits in the body of the dump's row loop. Header.ReadSampleHeader is the body of the sample-record loop, and Header.ReadSampleHeaders is that 31-record loop itself, split out of the header parser. All three are separate methods here so each proof stays small. The order of reads and the cursor movement are unchanged.
- Cell.DecodeCell: takes `bv8` bytes. JavaScript numbers outside 0..255 passed to `decodeCell` are not modelled.
- The player, the demos and all I/O around the decoder (file loading, console output) are not part of this model.
