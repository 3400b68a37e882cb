/**
 * Bitmap glyphs: a glyph is 16 rows of 8 bits, most significant bit on the
 * left, and `WriteAscii` writes one pixel for every set bit. Only 'A' has a
 * glyph.
 */
module Font {
  import opened Common
  import opened Graphics

  /** `kFontA`. */
  const FontA: seq<bv8> := [
    0x00, 0x18, 0x18, 0x18, 0x18, 0x24, 0x24, 0x24,
    0x24, 0x7e, 0x42, 0x42, 0x42, 0xe7, 0x00, 0x00
  ]

  /** The test `(fontData[dy] << dx) & 0x80u` in `int` arithmetic. */
  predicate BitTest(bits: bv8, dx: nat)
    requires dx < 16
  {
    ((bits as bv32) << dx) & 0x80 != 0
  }

  /** The test picks bit `7 - dx` for the eight columns of the glyph and
      fails for every column to the right of them. */
  lemma BitTestMeaning(bits: bv8, dx: nat)
    requires dx < 16
    ensures BitTest(bits, dx) <==> dx < 8 && (bits >> (7 - dx)) & 1 == 1
  {
  }

  /** Row `dy` of the glyph for the first `n` columns, left to right. */
  function RowWrites(x: int, y: int, glyph: seq<bv8>, dy: nat, n: nat, color: PixelColor): seq<PixelWrite>
    requires dy < |glyph| && n <= 16
  {
    if n == 0 then [] else
      RowWrites(x, y, glyph, dy, n - 1, color)
        + (if BitTest(glyph[dy], n - 1) then [PixelWrite(Vector2D(x + n - 1, y + dy), color)] else [])
  }

  /** The first `n` rows of the glyph, top to bottom. */
  function GlyphWrites(x: int, y: int, glyph: seq<bv8>, n: nat, color: PixelColor): seq<PixelWrite>
    requires n <= |glyph|
  {
    if n == 0 then [] else GlyphWrites(x, y, glyph, n - 1, color) + RowWrites(x, y, glyph, n - 1, 16, color)
  }

  /** `WriteAscii(writer, x, y, c, color)`. */
  method WriteAscii(writer: PixelLog, x: int, y: int, c: char, color: PixelColor)
    modifies writer
    ensures c != 'A' ==> writer.writes == old(writer.writes)
    ensures c == 'A' ==> writer.writes == old(writer.writes) + GlyphWrites(x, y, FontA, 16, color)
  {
    var fontData: Option<seq<bv8>> := None;
    if c == 'A' {
      fontData := Some(FontA);
    }
    if fontData.None? {
      return;
    }
    WriteGlyph(writer, x, y, fontData.value, color);
  }

  /** The loops of `WriteAscii` over the rows of a glyph. */
  method WriteGlyph(writer: PixelLog, x: int, y: int, glyph: seq<bv8>, color: PixelColor)
    requires |glyph| == 16
    modifies writer
    ensures writer.writes == old(writer.writes) + GlyphWrites(x, y, glyph, 16, color)
  {
    for dy := 0 to 16
      invariant writer.writes == old(writer.writes) + GlyphWrites(x, y, glyph, dy, color)
    {
      WriteGlyphRow(writer, x, y, glyph, dy, color);
    }
  }

  /** One pass of the outer loop of `WriteAscii`: row `dy`, left to right. */
  method WriteGlyphRow(writer: PixelLog, x: int, y: int, glyph: seq<bv8>, dy: nat, color: PixelColor)
    requires dy < |glyph|
    modifies writer
    ensures writer.writes == old(writer.writes) + RowWrites(x, y, glyph, dy, 16, color)
  {
    for dx := 0 to 16
      invariant writer.writes == old(writer.writes) + RowWrites(x, y, glyph, dy, dx, color)
    {
      if ((glyph[dy] as bv32) << dx) & 0x80 != 0 {
        writer.Write(Vector2D(x + dx, y + dy), color);
      }
    }
  }

  lemma {:induction false} RowWritesSound(x: int, y: int, glyph: seq<bv8>, dy: nat, n: nat, color: PixelColor, w: PixelWrite)
    requires dy < |glyph| && n <= 16
    requires w in RowWrites(x, y, glyph, dy, n, color)
    ensures w.color == color && w.pos.y - y == dy && 0 <= w.pos.x - x < n
    ensures BitTest(glyph[dy], w.pos.x - x)
  {
    if n > 0 {
      if w in RowWrites(x, y, glyph, dy, n - 1, color) {
        RowWritesSound(x, y, glyph, dy, n - 1, color, w);
      }
    }
  }

  lemma {:induction false} RowWritesComplete(x: int, y: int, glyph: seq<bv8>, dy: nat, n: nat, color: PixelColor, dx: nat)
    requires dy < |glyph| && dx < n <= 16 && BitTest(glyph[dy], dx)
    ensures PixelWrite(Vector2D(x + dx, y + dy), color) in RowWrites(x, y, glyph, dy, n, color)
  {
    if dx < n - 1 {
      RowWritesComplete(x, y, glyph, dy, n - 1, color, dx);
    }
  }

  lemma {:induction false} GlyphWritesSound(x: int, y: int, glyph: seq<bv8>, n: nat, color: PixelColor, w: PixelWrite)
    requires n <= |glyph|
    requires w in GlyphWrites(x, y, glyph, n, color)
    ensures w.color == color && 0 <= w.pos.y - y < n && 0 <= w.pos.x - x < 16
    ensures BitTest(glyph[w.pos.y - y], w.pos.x - x)
  {
    if n > 0 {
      if w in GlyphWrites(x, y, glyph, n - 1, color) {
        GlyphWritesSound(x, y, glyph, n - 1, color, w);
      } else {
        RowWritesSound(x, y, glyph, n - 1, 16, color, w);
      }
    }
  }

  lemma {:induction false} GlyphWritesComplete(x: int, y: int, glyph: seq<bv8>, n: nat, color: PixelColor, dx: nat, dy: nat)
    requires n <= |glyph| && dy < n && dx < 16 && BitTest(glyph[dy], dx)
    ensures PixelWrite(Vector2D(x + dx, y + dy), color) in GlyphWrites(x, y, glyph, n, color)
  {
    var w := PixelWrite(Vector2D(x + dx, y + dy), color);
    var above := GlyphWrites(x, y, glyph, n - 1, color);
    var last := RowWrites(x, y, glyph, n - 1, 16, color);
    if dy < n - 1 {
      GlyphWritesComplete(x, y, glyph, n - 1, color, dx, dy);
      assert w in above;
    } else {
      RowWritesComplete(x, y, glyph, dy, 16, color, dx);
      assert w in last;
    }
    assert GlyphWrites(x, y, glyph, n, color) == above + last;
  }

  /** A glyph is drawn as exactly the pixels `(x + dx, y + dy)` whose bit
      `7 - dx` of row `dy` is set, all in `color`. */
  lemma GlyphPixels(x: int, y: int, glyph: seq<bv8>, color: PixelColor, w: PixelWrite)
    requires |glyph| <= 16
    ensures w in GlyphWrites(x, y, glyph, |glyph|, color) <==>
      var dx, dy := w.pos.x - x, w.pos.y - y;
      && w.color == color && 0 <= dy < |glyph| && 0 <= dx < 8
      && (glyph[dy] >> (7 - dx)) & 1 == 1
  {
    var dx, dy := w.pos.x - x, w.pos.y - y;
    if w in GlyphWrites(x, y, glyph, |glyph|, color) {
      GlyphWritesSound(x, y, glyph, |glyph|, color, w);
      BitTestMeaning(glyph[dy], dx);
    }
    if w.color == color && 0 <= dy < |glyph| && 0 <= dx < 8 {
      BitTestMeaning(glyph[dy], dx);
      if (glyph[dy] >> (7 - dx)) & 1 == 1 {
        GlyphWritesComplete(x, y, glyph, |glyph|, color, dx, dy);
        assert w == PixelWrite(Vector2D(x + dx, y + dy), color);
      }
    }
  }

  /** 'A' is drawn as exactly the pixels `(x + dx, y + dy)` whose bit
      `7 - dx` of `kFontA[dy]` is set, all in `color`; nothing is written at
      `dx >= 8` or on rows 0, 14 and 15. */
  lemma GlyphAPixels(x: int, y: int, color: PixelColor, w: PixelWrite)
    ensures w in GlyphWrites(x, y, FontA, 16, color) <==>
      var dx, dy := w.pos.x - x, w.pos.y - y;
      && w.color == color && 0 <= dy < 16 && 0 <= dx < 8
      && (FontA[dy] >> (7 - dx)) & 1 == 1
    ensures w in GlyphWrites(x, y, FontA, 16, color) ==>
      w.pos.y - y != 0 && w.pos.y - y != 14 && w.pos.y - y != 15
  {
    GlyphPixels(x, y, FontA, color, w);
    assert FontA[0] == 0 && FontA[14] == 0 && FontA[15] == 0;
  }
}
