/**
 * Windows: a `width` x `height` grid of pixel colours, an optional
 * transparent colour, and the transparent copy of the grid onto a frame
 * buffer. The shadow buffer is not part of this model.
 */
module Window {
  import opened Common
  import opened Graphics

  const Black := PixelColor(0, 0, 0)

  /** The destination `FrameBuffer`: its pixel writer, and its `Copy`
      calls as the positions they were made at. */
  class FrameBuffer {
    const writer: PixelLog
    var copies: seq<Vector2D>

    constructor (w: PixelLog)
      ensures writer == w && copies == []
    {
      writer := w;
      copies := [];
    }

    method Copy(position: Vector2D)
      modifies this`copies
      ensures copies == old(copies) + [position]
    {
      copies := copies + [position];
    }
  }

  /** Row `y` of the transparent copy, for the first `n` cells of `row`: a
      write for every cell whose colour is not `tc`, left to right. */
  function RowWrites(row: seq<PixelColor>, y: int, n: nat, position: Vector2D, tc: PixelColor): seq<PixelWrite>
    requires n <= |row|
  {
    if n == 0 then [] else
      var c := row[n - 1];
      RowWrites(row, y, n - 1, position, tc)
        + (if c != tc then [PixelWrite(position.Plus(Vector2D(n - 1, y)), c)] else [])
  }

  /** The first `n` rows of the transparent copy, top to bottom. */
  function GridWrites(cells: seq<seq<PixelColor>>, n: nat, position: Vector2D, tc: PixelColor): seq<PixelWrite>
    requires n <= |cells|
  {
    if n == 0 then [] else
      GridWrites(cells, n - 1, position, tc) + RowWrites(cells[n - 1], n - 1, |cells[n - 1]|, position, tc)
  }

  class Window {
    const width: int
    const height: int
    var data: seq<seq<PixelColor>>
    var transparentColor: Option<PixelColor>

    /** `data_` has `height` rows of `width` cells. */
    ghost predicate Valid()
      reads this
    {
      && 0 <= width && 0 <= height
      && |data| == height
      && forall y :: 0 <= y < |data| ==> |data[y]| == width
    }

    predicate InRange(pos: Vector2D)
      reads this
    {
      0 <= pos.x < width && 0 <= pos.y < height
    }

    /** `Window(width, height, shadow_format)`: every cell value-initialised
        to black, no transparent colour. */
    constructor (w: int, h: int)
      requires 0 <= w && 0 <= h
      ensures Valid() && width == w && height == h && transparentColor == None
      ensures Width() == w && Height() == h
      ensures forall y, x :: 0 <= y < h && 0 <= x < w ==> data[y][x] == Black
    {
      width := w;
      height := h;
      transparentColor := None;
      data := seq(h, _ => []);
      new;
      var y := 0;
      while y < h
        invariant 0 <= y <= h && |data| == h && transparentColor == None
        invariant forall k :: 0 <= k < y ==> data[k] == seq(w, _ => Black)
      {
        data := data[y := seq(w, _ => Black)];
        y := y + 1;
      }
    }

    function Width(): (r: int)
      reads this
      requires Valid()
      ensures forall y :: 0 <= y < |data| ==> |data[y]| == r
    {
      width
    }

    function Height(): (r: int)
      reads this
      requires Valid()
      ensures r == |data|
    {
      height
    }

    /** `At(pos)`: the colour of the cell in column `pos.x`, row `pos.y`. */
    function At(pos: Vector2D): PixelColor
      reads this
      requires Valid() && InRange(pos)
    {
      data[pos.y][pos.x]
    }

    /** `Write(pos, c)` stores `c` in one cell and no other. */
    method Write(pos: Vector2D, c: PixelColor)
      requires Valid() && InRange(pos)
      modifies this`data
      ensures Valid() && At(pos) == c
      ensures forall q :: InRange(q) && q != pos ==> At(q) == old(At(q))
    {
      data := data[pos.y := data[pos.y][pos.x := c]];
    }

    method SetTransparentColor(c: Option<PixelColor>)
      modifies this`transparentColor
      ensures transparentColor == c
    {
      transparentColor := c;
    }

    /** `DrawTo(dest, position)`: without a transparent colour the shadow
        buffer is copied; with one, every cell of another colour is written
        at `position` plus its coordinates. */
    method DrawTo(dest: FrameBuffer, position: Vector2D)
      requires Valid()
      modifies dest`copies, dest.writer
      ensures transparentColor.None? ==>
        dest.copies == old(dest.copies) + [position] && dest.writer.writes == old(dest.writer.writes)
      ensures transparentColor.Some? ==>
        && dest.copies == old(dest.copies)
        && dest.writer.writes == old(dest.writer.writes) + GridWrites(data, height, position, transparentColor.value)
    {
      if transparentColor.None? {
        dest.Copy(position);
        return;
      }
      var tc := transparentColor.value;
      var writer := dest.writer;
      var y := 0;
      while y < Height()
        modifies writer
        invariant 0 <= y <= height
        invariant writer.writes == old(writer.writes) + GridWrites(data, y, position, tc)
      {
        DrawRowTo(writer, y, position, tc);
        y := y + 1;
      }
    }

    /** One pass of the outer loop of `DrawTo`: row `y`, left to right. */
    method DrawRowTo(writer: PixelLog, y: nat, position: Vector2D, tc: PixelColor)
      requires Valid() && y < height
      modifies writer
      ensures writer.writes == old(writer.writes) + RowWrites(data[y], y, width, position, tc)
    {
      var x := 0;
      while x < Width()
        invariant 0 <= x <= width
        invariant writer.writes == old(writer.writes) + RowWrites(data[y], y, x, position, tc)
      {
        var c := At(Vector2D(x, y));
        if c != tc {
          writer.Write(position.Plus(Vector2D(x, y)), c);
        }
        x := x + 1;
      }
    }
  }

  /** `Write(pos, c)` then `At(pos)` gives `c`. */
  method WriteThenAt(w: Window, pos: Vector2D, c: PixelColor) returns (r: PixelColor)
    requires w.Valid() && w.InRange(pos)
    modifies w`data
    ensures r == c && w.Valid()
  {
    w.Write(pos, c);
    r := w.At(pos);
  }

  /** A write of the transparent copy is the colour of a cell that is not
      the transparent colour, at `position` plus that cell's coordinates. */
  lemma {:induction false} RowWritesSound(row: seq<PixelColor>, y: int, n: nat, position: Vector2D,
                                          tc: PixelColor, w: PixelWrite)
    requires n <= |row|
    requires w in RowWrites(row, y, n, position, tc)
    ensures var d := w.pos.Minus(position);
      && d.y == y && 0 <= d.x < n && row[d.x] == w.color && w.color != tc
  {
    if n > 0 {
      if w !in RowWrites(row, y, n - 1, position, tc) {
        assert w == PixelWrite(position.Plus(Vector2D(n - 1, y)), row[n - 1]);
      } else {
        RowWritesSound(row, y, n - 1, position, tc, w);
      }
    }
  }

  lemma {:induction false} RowWritesComplete(row: seq<PixelColor>, y: int, n: nat, position: Vector2D,
                                             tc: PixelColor, x: nat)
    requires x < n <= |row| && row[x] != tc
    ensures PixelWrite(position.Plus(Vector2D(x, y)), row[x]) in RowWrites(row, y, n, position, tc)
  {
    if x < n - 1 {
      RowWritesComplete(row, y, n - 1, position, tc, x);
    }
  }

  lemma {:induction false} GridWritesSound(cells: seq<seq<PixelColor>>, n: nat, position: Vector2D,
                                           tc: PixelColor, w: PixelWrite)
    requires n <= |cells|
    requires w in GridWrites(cells, n, position, tc)
    ensures var d := w.pos.Minus(position);
      && 0 <= d.y < n && 0 <= d.x < |cells[d.y]| && cells[d.y][d.x] == w.color && w.color != tc
  {
    if n > 0 {
      if w in GridWrites(cells, n - 1, position, tc) {
        GridWritesSound(cells, n - 1, position, tc, w);
      } else {
        RowWritesSound(cells[n - 1], n - 1, |cells[n - 1]|, position, tc, w);
      }
    }
  }

  lemma {:induction false} GridWritesComplete(cells: seq<seq<PixelColor>>, n: nat, position: Vector2D,
                                              tc: PixelColor, x: nat, y: nat)
    requires y < n <= |cells| && x < |cells[y]| && cells[y][x] != tc
    ensures PixelWrite(position.Plus(Vector2D(x, y)), cells[y][x]) in GridWrites(cells, n, position, tc)
  {
    var w := PixelWrite(position.Plus(Vector2D(x, y)), cells[y][x]);
    var above := GridWrites(cells, n - 1, position, tc);
    var last := RowWrites(cells[n - 1], n - 1, |cells[n - 1]|, position, tc);
    if y < n - 1 {
      GridWritesComplete(cells, n - 1, position, tc, x, y);
      InConcat(w, above, last);
    } else {
      RowWritesComplete(cells[y], y, |cells[y]|, position, tc, x);
      InConcat(w, above, last);
    }
  }

  /** `WindowWriter`: the `PixelWriter` of a window, forwarding to it. */
  class WindowWriter {
    const window: Window

    constructor (w: Window)
      ensures window == w
    {
      window := w;
    }

    method Write(pos: Vector2D, c: PixelColor)
      requires window.Valid() && window.InRange(pos)
      modifies window`data
      ensures window.Valid() && window.At(pos) == c
      ensures forall q :: window.InRange(q) && q != pos ==> window.At(q) == old(window.At(q))
    {
      window.Write(pos, c);
    }

    function Width(): (r: int)
      reads this, window
      requires window.Valid()
      ensures r == window.Width()
    {
      window.Width()
    }

    function Height(): (r: int)
      reads this, window
      requires window.Valid()
      ensures r == window.Height()
    {
      window.Height()
    }
  }
}
