/**
 * The terminal window's blinking cursor: a 7 x 15 block at the cursor's
 * character cell, filled white when shown and black when hidden.
 */
module Terminal {
  import opened Common
  import opened Graphics

  const Rows: nat := 15
  const Columns: nat := 60

  /** `ToColor(c)`: the colour `0xRRGGBB`. */
  function ToColor(c: nat): (r: PixelColor)
    requires c < 0x100_0000
    ensures r.r as nat * 0x1_0000 + r.g as nat * 0x100 + r.b as nat == c
  {
    PixelColor((c / 0x1_0000) as uint8, (c / 0x100 % 0x100) as uint8, (c % 0x100) as uint8)
  }

  /** The colour code of a shown (0xffffff) or hidden (0) cursor. */
  function CursorColorCode(visible: bool): (c: nat)
    ensures c < 0x100_0000
    ensures visible ==> c == 0xff_ffff
    ensures !visible ==> c == 0
  {
    if visible then 0xff_ffff else 0
  }

  /** The top-left corner of the cursor block for character cell `cursor`:
      cells are 8 x 16 pixels with a margin of 4 on the left and 5 on the
      top. */
  function CursorBlockPos(cursor: Vector2D): (p: Vector2D)
    ensures p.x - 4 == 8 * cursor.x && p.y - 5 == 16 * cursor.y
  {
    Vector2D(4 + 8 * cursor.x, 5 + 16 * cursor.y)
  }

  const CursorBlockSize := Vector2D(7, 15)

  /** The writes that `_DrawCursor(visible)` makes. */
  function CursorWrites(cursor: Vector2D, visible: bool): seq<PixelWrite>
  {
    FillSpec(CursorBlockPos(cursor), CursorBlockSize, ToColor(CursorColorCode(visible)))
  }

  class Terminal {
    var cursor: Vector2D
    var cursorVisible: bool
    /** `*window_->InnerWriter()`. */
    const innerWriter: PixelLog

    /** The member initialisers: the cursor at cell (0, 0), hidden. */
    constructor (writer: PixelLog)
      ensures innerWriter == writer
      ensures cursor == Vector2D(0, 0) && !cursorVisible
    {
      innerWriter := writer;
      cursor := Vector2D(0, 0);
      cursorVisible := false;
    }

    method DrawCursor(visible: bool)
      modifies innerWriter
      ensures innerWriter.writes == old(innerWriter.writes) + CursorWrites(cursor, visible)
    {
      var color := if visible then ToColor(0xff_ffff) else ToColor(0);
      var pos := Vector2D(4 + 8 * cursor.x, 5 + 16 * cursor.y);
      FillRectangle(innerWriter, pos, Vector2D(7, 15), color);
    }

    /** `BlinkCursor()`: flips the visibility and redraws the block. */
    method BlinkCursor()
      modifies this`cursorVisible, innerWriter
      ensures cursorVisible == !old(cursorVisible) && cursor == old(cursor)
      ensures innerWriter.writes == old(innerWriter.writes) + CursorWrites(cursor, cursorVisible)
    {
      cursorVisible := !cursorVisible;
      DrawCursor(cursorVisible);
    }

    /** Two blinks bring the visibility back and draw the block first in one
        colour and then in the other. */
    method BlinkTwice()
      modifies this`cursorVisible, innerWriter
      ensures cursorVisible == old(cursorVisible) && cursor == old(cursor)
      ensures innerWriter.writes ==
        old(innerWriter.writes) + CursorWrites(cursor, !cursorVisible) + CursorWrites(cursor, cursorVisible)
    {
      BlinkCursor();
      BlinkCursor();
    }
  }

  /** The cursor block covers exactly the pixels `(4 + 8x + dx, 5 + 16y + dy)`
      with `dx < 7` and `dy < 15`, in white when shown and black when
      hidden. */
  lemma CursorBlockPixels(cursor: Vector2D, visible: bool, w: PixelWrite)
    ensures w in CursorWrites(cursor, visible) <==>
      && w.color == (if visible then PixelColor(255, 255, 255) else PixelColor(0, 0, 0))
      && 0 <= w.pos.x - 4 - 8 * cursor.x < 7
      && 0 <= w.pos.y - 5 - 16 * cursor.y < 15
  {
    FillRectanglePoints(CursorBlockPos(cursor), CursorBlockSize, ToColor(CursorColorCode(visible)), w);
  }

  /** The block lies inside its own 8 x 16 character cell, so the blocks of
      two different cells never share a pixel. */
  lemma CursorBlocksDisjoint(c1: Vector2D, c2: Vector2D, v1: bool, v2: bool, w1: PixelWrite, w2: PixelWrite)
    requires w1 in CursorWrites(c1, v1) && w2 in CursorWrites(c2, v2)
    requires w1.pos == w2.pos
    ensures c1 == c2
  {
    CursorBlockPixels(c1, v1, w1);
    CursorBlockPixels(c2, v2, w2);
  }
}
