// Pattern cells of source/engine/protracker/mod/cell.ts. A cell is four
// bytes b0 b1 b2 b3; its fields are spread over them as follows
// (bit 7 is a byte's most significant bit):
//
//   field       bits   taken from
//   sample      7..4   b0 bits 7..4
//               3..0   b2 bits 7..4
//   period     11..8   b0 bits 3..0
//               7..0   b1
//   effect      3..0   b2 bits 3..0
//   param       7..0   b3
//
// The bytes are bit-vectors here, so that the masks and shifts of the
// source are the operations of the model.
module Cell {

  datatype ModCell = ModCell(
    sample: bv8,   // 0..255 (1..31 in practice, 0 for "no sample")
    period: bv16,  // 12-bit Amiga period
    effect: bv8,   // 0..15
    param: bv8)    // 0..255

  /** Unpacks the four bytes of a cell; every byte quadruple is a valid cell. */
  function DecodeCell(b0: bv8, b1: bv8, b2: bv8, b3: bv8): (c: ModCell)
    ensures c.period < 4096 && c.effect < 16
    ensures c.sample / 16 == b0 / 16 && c.sample % 16 == b2 / 16
    ensures c.period / 256 == (b0 % 16) as bv16 && c.period % 256 == b1 as bv16
    ensures c.effect == b2 % 16 && c.param == b3
  {
    var sample := (b0 & 0xF0) | ((b2 & 0xF0) >> 4);
    var period := (((b0 & 0x0F) as bv16) << 8) | b1 as bv16;
    var effect := b2 & 0x0F;
    var param := b3;
    ModCell(sample, period, effect, param)
  }

  /** A cell whose fields fit the packed layout. */
  predicate Packable(c: ModCell)
  {
    c.period < 4096 && c.effect < 16
  }

  /** Packs a cell back into its four bytes, following the layout above. */
  function EncodeCell(c: ModCell): (bytes: (bv8, bv8, bv8, bv8))
    requires Packable(c)
  {
    ((c.sample & 0xF0) | (c.period >> 8) as bv8,
     (c.period & 0xFF) as bv8,
     ((c.sample & 0x0F) << 4) | c.effect,
     c.param)
  }

  /** Decoding loses nothing: packing the decoded fields rebuilds the four bytes. */
  lemma EncodeDecode(b0: bv8, b1: bv8, b2: bv8, b3: bv8)
    ensures EncodeCell(DecodeCell(b0, b1, b2, b3)) == (b0, b1, b2, b3)
  {
  }

  /** Every cell whose fields fit the layout is the decoding of its packed bytes. */
  lemma DecodeEncode(c: ModCell)
    requires Packable(c)
    ensures var (b0, b1, b2, b3) := EncodeCell(c); DecodeCell(b0, b1, b2, b3) == c
  {
  }

  /** Worked instances: a typical cell, and the all-zero and all-ones extremes. */
  lemma DecodeExamples()
    ensures DecodeCell(0x05, 0x14, 0x3E, 0x7F) == ModCell(0x03, 0x514, 0x0E, 0x7F)
    ensures DecodeCell(0x00, 0x00, 0x00, 0x00) == ModCell(0x00, 0x000, 0x00, 0x00)
    ensures DecodeCell(0xFF, 0xFF, 0xFF, 0xFF) == ModCell(0xFF, 0xFFF, 0x0F, 0xFF)
  {
  }
}
