/**
 * The mouse: the observer that moves the cursor inside the screen and drags
 * a layer while the left button is held, and the drawing of the cursor glyph.
 */
module Mouse {
  import opened Common
  import opened Graphics
  import Layer

  const CursorWidth: nat := 15
  const CursorHeight: nat := 24
  const TransparentColor := PixelColor(0, 0, 1)

  /** `mouse_cursor_shape`: twenty rows are given, the last four rows are
      zero-filled. Each row also ends in a NUL that is never read. */
  const Shape: seq<string> := [
    "@              ",
    "@.@            ",
    "@...@          ",
    "@.....@        ",
    "@.......@      ",
    "@.........@    ",
    "@...........@  ",
    "@.............@",
    "@............@ ",
    "@..........@   ",
    "@ @ @....@     ",
    "     @...@     ",
    "     @...@     ",
    "     @...@     ",
    "     @...@     ",
    "     @...@     ",
    "     @...@     ",
    "     @...@     ",
    "     @...@     ",
    "     @@@@@     ",
    NulRow, NulRow, NulRow, NulRow
  ]

  const NulRow: string := "\0\0\0\0\0\0\0\0\0\0\0\0\0\0\0"

  lemma ShapeSize()
    ensures |Shape| == CursorHeight
    ensures forall dy :: 0 <= dy < |Shape| ==> |Shape[dy]| == CursorWidth
  {
  }

  /** '@' is black, '.' is white, anything else the transparent colour. */
  function CursorColor(ch: char): (c: PixelColor)
    ensures c == TransparentColor <==> ch != '@' && ch != '.'
  {
    if ch == '@' then PixelColor(0, 0, 0)
    else if ch == '.' then PixelColor(255, 255, 255)
    else TransparentColor
  }

  /** The write for cursor pixel `i`, counted row by row. */
  function CursorWrite(position: Vector2D, i: nat): PixelWrite
    requires i < CursorWidth * CursorHeight
  {
    PixelWrite(position.Plus(Vector2D(i % CursorWidth, i / CursorWidth)),
               CursorColor(Shape[i / CursorWidth][i % CursorWidth]))
  }

  /** The first `n` writes of `DrawMouseCursor`. */
  function CursorWrites(position: Vector2D, n: nat): (r: seq<PixelWrite>)
    requires n <= CursorWidth * CursorHeight
    ensures |r| == n
    ensures forall i :: 0 <= i < n ==> r[i] == CursorWrite(position, i)
  {
    if n == 0 then [] else
      var prev := CursorWrites(position, n - 1);
      var w := CursorWrite(position, n - 1);
      assert forall i :: 0 <= i < n - 1 ==> (prev + [w])[i] == prev[i];
      prev + [w]
  }

  /** `DrawMouseCursor`: one write for each of the 15 x 24 pixels, row by
      row, in the colour of the glyph character. */
  method DrawMouseCursor(writer: PixelLog, position: Vector2D)
    modifies writer
    ensures writer.writes == old(writer.writes) + CursorWrites(position, CursorWidth * CursorHeight)
  {
    for dy := 0 to CursorHeight
      invariant writer.writes == old(writer.writes) + CursorWrites(position, dy * CursorWidth)
    {
      DrawCursorRow(writer, position, dy, old(writer.writes));
    }
  }

  /** One pass of the outer loop of `DrawMouseCursor`: row `dy` follows the
      rows above it. */
  method DrawCursorRow(writer: PixelLog, position: Vector2D, dy: nat, ghost before: seq<PixelWrite>)
    requires dy < CursorHeight
    requires writer.writes == before + CursorWrites(position, dy * CursorWidth)
    modifies writer
    ensures writer.writes == before + CursorWrites(position, dy * CursorWidth + CursorWidth)
  {
    for dx := 0 to CursorWidth
      invariant writer.writes == before + CursorWrites(position, dy * CursorWidth + dx)
    {
      DrawCursorPixel(writer, position, dx, dy);
    }
  }

  /** The body of the inner loop of `DrawMouseCursor`. */
  method DrawCursorPixel(writer: PixelLog, position: Vector2D, dx: nat, dy: nat)
    requires dx < CursorWidth && dy < CursorHeight
    modifies writer
    ensures dy * CursorWidth + dx < CursorWidth * CursorHeight
    ensures writer.writes == old(writer.writes) + [CursorWrite(position, dy * CursorWidth + dx)]
  {
    DivModSplit(dy, dx, CursorWidth);
    ShapeSize();
    var ch := Shape[dy][dx];
    if ch == '@' {
      writer.Write(position.Plus(Vector2D(dx, dy)), PixelColor(0, 0, 0));
    } else if ch == '.' {
      writer.Write(position.Plus(Vector2D(dx, dy)), PixelColor(255, 255, 255));
    } else {
      writer.Write(position.Plus(Vector2D(dx, dy)), TransparentColor);
    }
  }

  /** Pixel `(dx, dy)` of the cursor is written once, at `position + (dx, dy)`
      in the colour of its glyph character; rows 20 to 23 are transparent. */
  lemma CursorPixel(position: Vector2D, dx: nat, dy: nat)
    requires dx < CursorWidth && dy < CursorHeight
    ensures var w := CursorWrites(position, CursorWidth * CursorHeight)[dy * CursorWidth + dx];
      && w.pos == position.Plus(Vector2D(dx, dy))
      && w.color == CursorColor(Shape[dy][dx])
      && (dy >= 20 ==> w.color == TransparentColor)
  {
    DivModSplit(dy, dx, CursorWidth);
    assert dy * CursorWidth + dx < CursorWidth * CursorHeight;
    ShapeSize();
  }

  /** The pixels written are pairwise different. */
  lemma CursorPixelsDistinct(position: Vector2D, i: nat, j: nat)
    requires i < j < CursorWidth * CursorHeight
    ensures CursorWrite(position, i).pos != CursorWrite(position, j).pos
  {
    var dy1, dx1 := i / CursorWidth, i % CursorWidth;
    var dy2, dx2 := j / CursorWidth, j % CursorWidth;
    assert i == dy1 * CursorWidth + dx1 && j == dy2 * CursorWidth + dx2;
  }

  /** What `FindLayerByPosition` returned for the new position: the layer's
      id and whether it is draggable. */
  datatype HitLayer = HitLayer(id: uint32, draggable: bool)

  predicate LeftPressed(buttons: uint8)
  {
    buttons % 2 == 1
  }

  /** The cursor position after a move by `displacement`: at most the
      screen size minus one, then at least 0, per component. */
  function ClampToScreen(p: Vector2D, screenSize: Vector2D): (r: Vector2D)
    ensures 0 <= r.x && 0 <= r.y
    ensures screenSize.x >= 1 ==> r.x < screenSize.x
    ensures screenSize.y >= 1 ==> r.y < screenSize.y
    ensures 0 <= p.x < screenSize.x ==> r.x == p.x
    ensures 0 <= p.y < screenSize.y ==> r.y == p.y
    ensures p.x < 0 || screenSize.x < 1 ==> r.x == 0
    ensures p.y < 0 || screenSize.y < 1 ==> r.y == 0
    ensures 0 <= p.x && 1 <= screenSize.x <= p.x ==> r.x == screenSize.x - 1
    ensures 0 <= p.y && 1 <= screenSize.y <= p.y ==> r.y == screenSize.y - 1
  {
    ElementMax(ElementMin(p, screenSize.Plus(Vector2D(-1, -1))), Vector2D(0, 0))
  }

  /** The static state of `MouseObserver` and the globals it uses. */
  class Mouse {
    var position: Vector2D
    var dragLayerId: uint32
    var previousButtons: uint8
    const mouseLayerId: uint32
    const layerManager: Layer.LayerManager
    const screen: Screen

    ghost predicate Valid()
      reads this, layerManager
    {
      layerManager.Valid()
    }

    /** The statics start at 0; `InitializeMouse` puts the cursor at
        (200, 200). */
    constructor (lm: Layer.LayerManager, sc: Screen, layerId: uint32)
      requires lm.Valid()
      ensures Valid() && layerManager == lm && screen == sc && mouseLayerId == layerId
      ensures position == Vector2D(200, 200) && dragLayerId == 0 && previousButtons == 0
    {
      layerManager := lm;
      screen := sc;
      mouseLayerId := layerId;
      position := Vector2D(200, 200);
      dragLayerId := 0;
      previousButtons := 0;
    }

    /** `MouseObserver(buttons, dx, dy)`. */
    method Observe(buttons: uint8, displacementX: int, displacementY: int, hit: Option<HitLayer>)
      requires Valid()
      requires -128 <= displacementX < 128 && -128 <= displacementY < 128
      modifies this`position, this`dragLayerId, this`previousButtons, set l | l in layerManager.layers
      ensures Valid()
      ensures position == ClampToScreen(old(position).Plus(Vector2D(displacementX, displacementY)), screen.GetScreenSize())
      ensures previousButtons == buttons
      ensures !LeftPressed(old(previousButtons)) && LeftPressed(buttons) ==>
        dragLayerId == if hit.Some? && hit.value.draggable then hit.value.id else old(dragLayerId)
      ensures LeftPressed(old(previousButtons)) && !LeftPressed(buttons) ==> dragLayerId == 0
      ensures LeftPressed(old(previousButtons)) == LeftPressed(buttons) ==> dragLayerId == old(dragLayerId)
      ensures var dragging := LeftPressed(old(previousButtons)) && LeftPressed(buttons) && old(dragLayerId) > 0;
        layerManager.Positions() ==
          Layer.MovedBy(
            Layer.MovedTo(old(layerManager.Positions()), Layer.IndexOfId(layerManager.layers, mouseLayerId), position),
            if dragging then Layer.IndexOfId(layerManager.layers, old(dragLayerId)) else None,
            position.Minus(old(position)))
    {
      var oldpos := position;
      var newpos := position.Plus(Vector2D(displacementX, displacementY));
      newpos := ElementMin(newpos, screen.GetScreenSize().Plus(Vector2D(-1, -1)));
      position := ElementMax(newpos, Vector2D(0, 0));
      var posdiff := position.Minus(oldpos);
      layerManager.Move(mouseLayerId, position);
      var previousLeftPressed := previousButtons % 2 == 1;
      var leftPressed := buttons % 2 == 1;
      if !previousLeftPressed && leftPressed {
        if hit.Some? && hit.value.draggable {
          dragLayerId := hit.value.id;
        }
      } else if previousLeftPressed && leftPressed {
        if dragLayerId > 0 {
          layerManager.MoveRelative(dragLayerId, posdiff);
        }
      } else if previousLeftPressed && !leftPressed {
        dragLayerId := 0;
      }
      previousButtons := buttons;
    }
  }
}
