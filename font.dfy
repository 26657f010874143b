/**
 * Font: the built-in hexadecimal glyphs that `load_font` places at the
 * bottom of memory, five rows of one byte each per digit 0..F.
 */
module Font {
  import opened Bytes

  const GLYPH_HEIGHT: nat := 5
  const FONT_SIZE: nat := 80

  const FONT: seq<byte> := [
    0xF0, 0x90, 0x90, 0x90, 0xF0, // 0
    0x20, 0x60, 0x20, 0x20, 0x70, // 1
    0xF0, 0x10, 0xF0, 0x80, 0xF0, // 2
    0xF0, 0x10, 0xF0, 0x10, 0xF0, // 3
    0x90, 0x90, 0xF0, 0x10, 0x10, // 4
    0xF0, 0x80, 0xF0, 0x10, 0xF0, // 5
    0xF0, 0x80, 0xF0, 0x90, 0xF0, // 6
    0xF0, 0x10, 0x20, 0x40, 0x40, // 7
    0xF0, 0x90, 0xF0, 0x90, 0xF0, // 8
    0xF0, 0x90, 0xF0, 0x10, 0xF0, // 9
    0xF0, 0x90, 0xF0, 0x90, 0x90, // A
    0xE0, 0x90, 0xE0, 0x90, 0xE0, // B
    0xF0, 0x80, 0x80, 0x80, 0xF0, // C
    0xE0, 0x90, 0x90, 0x90, 0xE0, // D
    0xF0, 0x80, 0xF0, 0x80, 0xF0, // E
    0xF0, 0x80, 0xF0, 0x80, 0x80  // F
  ]

  /** Where the glyph of `digit` starts, as FX29 computes it. */
  function GlyphAddress(digit: nat): (a: nat)
    requires digit < 16
    ensures a + GLYPH_HEIGHT <= FONT_SIZE == |FONT|
    ensures a % GLYPH_HEIGHT == 0 && a / GLYPH_HEIGHT == digit
  {
    digit * GLYPH_HEIGHT
  }
}
