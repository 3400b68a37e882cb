/**
 * Pixel output: the two frame-buffer pixel writers (RGB and BGR byte order,
 * the fourth byte reserved), the frame-buffer address of a pixel, the
 * rectangle routines, and the selection of the writer at start-up.
 *
 * The drawing routines write through the abstract `PixelWriter`; here that
 * writer is `PixelLog`, which records every `Write` call in order.
 */
module Graphics {
  import opened Common

  /** One `PixelWriter::Write(pos, c)` call. */
  datatype PixelWrite = PixelWrite(pos: Vector2D, color: PixelColor)

  /** A `PixelWriter` seen through the calls made on it. */
  class PixelLog {
    var writes: seq<PixelWrite>

    constructor ()
      ensures writes == []
    {
      writes := [];
    }

    method Write(pos: Vector2D, c: PixelColor)
      modifies this
      ensures writes == old(writes) + [PixelWrite(pos, c)]
    {
      writes := writes + [PixelWrite(pos, c)];
    }
  }

  datatype PixelFormat = PixelRGBResv8BitPerColor | PixelBGRResv8BitPerColor | OtherPixelFormat(code: nat)

  /** `FrameBufferConfig`; the frame buffer is addressed as an offset into
      the byte memory that the writer owns. */
  datatype FrameBufferConfig = FrameBufferConfig(
    frameBuffer: nat,
    pixelsPerScanLine: nat,
    horizontalResolution: uint32,
    verticalResolution: uint32,
    pixelFormat: PixelFormat)

  /** `PixelAt(x, y)`: four bytes per pixel, `pixels_per_scan_line` pixels
      per row. */
  function PixelAt(config: FrameBufferConfig, x: int, y: int): int
  {
    config.frameBuffer + 4 * (config.pixelsPerScanLine * y + x)
  }

  lemma PixelAtAdjacent(config: FrameBufferConfig, x: int, y: int)
    ensures PixelAt(config, x + 1, y) == PixelAt(config, x, y) + 4
    ensures PixelAt(config, x, y + 1) == PixelAt(config, x, y) + 4 * config.pixelsPerScanLine
  {
  }

  /** Two different pixels of the visible part of a row layout have slots
      that do not overlap. */
  lemma PixelSlotsDisjoint(config: FrameBufferConfig, x1: nat, y1: nat, x2: nat, y2: nat)
    requires x1 < config.pixelsPerScanLine && x2 < config.pixelsPerScanLine
    requires (x1, y1) != (x2, y2)
    ensures PixelAt(config, x1, y1) + 4 <= PixelAt(config, x2, y2)
         || PixelAt(config, x2, y2) + 4 <= PixelAt(config, x1, y1)
  {
    var n := config.pixelsPerScanLine;
    DivModSplit(y1, x1, n);
    DivModSplit(y2, x2, n);
    assert y1 * n + x1 != y2 * n + x2;
    assert n * y1 == y1 * n && n * y2 == y2 * n;
  }

  /** The byte order of each writer. */
  datatype WriterKind = RGB | BGR

  function ChannelBytes(kind: WriterKind, c: PixelColor): (bytes: seq<uint8>)
    ensures |bytes| == 3 && bytes[1] == c.g
  {
    match kind
    case RGB => [c.r, c.g, c.b]
    case BGR => [c.b, c.g, c.r]
  }

  /** The colour that a writer's three bytes stand for. */
  function ColorOfBytes(kind: WriterKind, bytes: seq<uint8>): PixelColor
    requires |bytes| == 3
  {
    match kind
    case RGB => PixelColor(bytes[0], bytes[1], bytes[2])
    case BGR => PixelColor(bytes[2], bytes[1], bytes[0])
  }

  /** Each writer's bytes read back as the colour written, and the two
      writers store the channels in opposite orders. */
  lemma ChannelBytesRoundTrip(kind: WriterKind, c: PixelColor)
    ensures ColorOfBytes(kind, ChannelBytes(kind, c)) == c
    ensures ChannelBytes(BGR, c) == [ChannelBytes(RGB, c)[2], ChannelBytes(RGB, c)[1], ChannelBytes(RGB, c)[0]]
  {
  }

  /** `RGBResv8BitPerColorPixelWriter` or `BGRResv8BitPerColorPixelWriter`
      over the frame-buffer memory. */
  class FrameBufferWriter {
    const kind: WriterKind
    const config: FrameBufferConfig
    const memory: array<uint8>

    constructor (k: WriterKind, cfg: FrameBufferConfig, mem: array<uint8>)
      ensures kind == k && config == cfg && memory == mem
    {
      kind := k;
      config := cfg;
      memory := mem;
    }

    /** `Write(pos, c)`: bytes 0 to 2 of the pixel's slot get the channels;
        the reserved byte 3 and all other bytes are left alone. */
    method Write(pos: Vector2D, c: PixelColor)
      requires 0 <= PixelAt(config, pos.x, pos.y) && PixelAt(config, pos.x, pos.y) + 4 <= memory.Length
      modifies memory
      ensures var p := PixelAt(config, pos.x, pos.y);
        && memory[p..p + 3] == ChannelBytes(kind, c)
        && ColorOfBytes(kind, memory[p..p + 3]) == c
        && forall i :: 0 <= i < memory.Length && !(p <= i < p + 3) ==> memory[i] == old(memory[i])
    {
      var p := PixelAt(config, pos.x, pos.y);
      match kind {
        case RGB =>
          memory[p] := c.r;
          memory[p + 1] := c.g;
          memory[p + 2] := c.b;
        case BGR =>
          memory[p] := c.b;
          memory[p + 1] := c.g;
          memory[p + 2] := c.r;
      }
      assert memory[p..p + 3] == [memory[p], memory[p + 1], memory[p + 2]];
    }
  }

  // Rectangles.

  /** Row `dy` of a filled rectangle: the points `pos + (dx, dy)` for
      `0 <= dx < width`, left to right. */
  function FillRow(pos: Vector2D, dy: int, width: nat, c: PixelColor): (r: seq<PixelWrite>)
    ensures |r| == width
    ensures forall dx :: 0 <= dx < width ==> r[dx] == PixelWrite(pos.Plus(Vector2D(dx, dy)), c)
  {
    seq(width, dx => PixelWrite(pos.Plus(Vector2D(dx, dy)), c))
  }

  /** The first `rows` rows of a filled rectangle, top to bottom. */
  function FillRows(pos: Vector2D, width: nat, rows: nat, c: PixelColor): seq<PixelWrite>
  {
    if rows == 0 then [] else FillRows(pos, width, rows - 1, c) + FillRow(pos, rows - 1, width, c)
  }

  function Clamp0(v: int): nat
  {
    if v < 0 then 0 else v
  }

  /** The writes of `FillRectangle(pos, size, c)`. */
  function FillSpec(pos: Vector2D, size: Vector2D, c: PixelColor): seq<PixelWrite>
  {
    FillRows(pos, Clamp0(size.x), Clamp0(size.y), c)
  }

  method FillRectangle(writer: PixelLog, pos: Vector2D, size: Vector2D, c: PixelColor)
    modifies writer
    ensures writer.writes == old(writer.writes) + FillSpec(pos, size, c)
  {
    var dy := 0;
    while dy < size.y
      invariant 0 <= dy <= Clamp0(size.y)
      invariant writer.writes == old(writer.writes) + FillRows(pos, Clamp0(size.x), dy, c)
    {
      FillRowOf(writer, pos, dy, size.x, c);
      dy := dy + 1;
    }
  }

  /** One pass of the outer loop of `FillRectangle`: row `dy`. */
  method FillRowOf(writer: PixelLog, pos: Vector2D, dy: int, width: int, c: PixelColor)
    modifies writer
    ensures writer.writes == old(writer.writes) + FillRow(pos, dy, Clamp0(width), c)
  {
    var dx := 0;
    while dx < width
      invariant 0 <= dx <= Clamp0(width)
      invariant writer.writes == old(writer.writes) + FillRow(pos, dy, dx, c)
    {
      writer.Write(pos.Plus(Vector2D(dx, dy)), c);
      assert FillRow(pos, dy, dx + 1, c) == FillRow(pos, dy, dx, c) + [PixelWrite(pos.Plus(Vector2D(dx, dy)), c)];
      dx := dx + 1;
    }
  }

  /** A point is written by a filled rectangle exactly when it is
      `pos + (dx, dy)` with `0 <= dx < size.x` and `0 <= dy < size.y`, always
      in colour `c`. */
  lemma {:induction false} FillRowsPoints(pos: Vector2D, width: nat, rows: nat, c: PixelColor, w: PixelWrite)
    ensures w in FillRows(pos, width, rows, c) <==>
      w.color == c && 0 <= w.pos.x - pos.x < width && 0 <= w.pos.y - pos.y < rows
  {
    if rows > 0 {
      FillRowsPoints(pos, width, rows - 1, c, w);
      var row := FillRow(pos, rows - 1, width, c);
      if w.color == c && 0 <= w.pos.x - pos.x < width && w.pos.y - pos.y == rows - 1 {
        assert row[w.pos.x - pos.x] == w;
      }
    }
  }

  lemma FillRectanglePoints(pos: Vector2D, size: Vector2D, c: PixelColor, w: PixelWrite)
    ensures w in FillSpec(pos, size, c) <==>
      w.color == c && 0 <= w.pos.x - pos.x < size.x && 0 <= w.pos.y - pos.y < size.y
    ensures size.x <= 0 || size.y <= 0 ==> FillSpec(pos, size, c) == []
  {
    FillRowsPoints(pos, Clamp0(size.x), Clamp0(size.y), c, w);
    if size.x <= 0 || size.y <= 0 {
      FillRowsEmpty(pos, Clamp0(size.x), Clamp0(size.y), c);
    }
  }

  lemma {:induction false} FillRowsEmpty(pos: Vector2D, width: nat, rows: nat, c: PixelColor)
    requires width == 0 || rows == 0
    ensures FillRows(pos, width, rows, c) == []
  {
    if rows > 0 {
      FillRowsEmpty(pos, width, rows - 1, c);
    }
  }

  /** The horizontal edges for `dx < n`: top then bottom, per column. */
  function HorizontalEdges(pos: Vector2D, size: Vector2D, n: nat, c: PixelColor): seq<PixelWrite>
  {
    if n == 0 then [] else
      var top := PixelWrite(pos.Plus(Vector2D(n - 1, 0)), c);
      var bottom := PixelWrite(pos.Plus(Vector2D(n - 1, size.y - 1)), c);
      HorizontalEdges(pos, size, n - 1, c) + [top, bottom]
  }

  /** The vertical edges for `1 <= dy < n`: left then right, per row. */
  function VerticalEdges(pos: Vector2D, size: Vector2D, n: nat, c: PixelColor): seq<PixelWrite>
  {
    if n <= 1 then [] else
      var left := PixelWrite(pos.Plus(Vector2D(0, n - 1)), c);
      var right := PixelWrite(pos.Plus(Vector2D(size.x - 1, n - 1)), c);
      VerticalEdges(pos, size, n - 1, c) + [left, right]
  }

  /** The writes of `DrawRectangle(pos, size, c)`. */
  function DrawSpec(pos: Vector2D, size: Vector2D, c: PixelColor): seq<PixelWrite>
  {
    HorizontalEdges(pos, size, Clamp0(size.x), c) + VerticalEdges(pos, size, Clamp0(size.y - 1), c)
  }

  method DrawRectangle(writer: PixelLog, pos: Vector2D, size: Vector2D, c: PixelColor)
    modifies writer
    ensures writer.writes == old(writer.writes) + DrawSpec(pos, size, c)
  {
    DrawHorizontalEdges(writer, pos, size, c);
    DrawVerticalEdges(writer, pos, size, c);
  }

  /** The first loop of `DrawRectangle`: the top and bottom edges. */
  method DrawHorizontalEdges(writer: PixelLog, pos: Vector2D, size: Vector2D, c: PixelColor)
    modifies writer
    ensures writer.writes == old(writer.writes) + HorizontalEdges(pos, size, Clamp0(size.x), c)
  {
    var dx := 0;
    while dx < size.x
      invariant 0 <= dx <= Clamp0(size.x)
      invariant writer.writes == old(writer.writes) + HorizontalEdges(pos, size, dx, c)
    {
      writer.Write(pos.Plus(Vector2D(dx, 0)), c);
      writer.Write(pos.Plus(Vector2D(dx, size.y - 1)), c);
      dx := dx + 1;
    }
  }

  /** The second loop of `DrawRectangle`: the left and right edges between
      them. */
  method DrawVerticalEdges(writer: PixelLog, pos: Vector2D, size: Vector2D, c: PixelColor)
    modifies writer
    ensures writer.writes == old(writer.writes) + VerticalEdges(pos, size, Clamp0(size.y - 1), c)
  {
    var dy := 1;
    while dy < size.y - 1
      invariant 1 <= dy && (dy <= size.y - 1 || dy == 1)
      invariant writer.writes == old(writer.writes) + VerticalEdges(pos, size, dy, c)
    {
      writer.Write(pos.Plus(Vector2D(0, dy)), c);
      writer.Write(pos.Plus(Vector2D(size.x - 1, dy)), c);
      dy := dy + 1;
    }
    assert VerticalEdges(pos, size, dy, c) == VerticalEdges(pos, size, Clamp0(size.y - 1), c);
  }

  /** On the border of the box `pos` .. `pos + size - 1`. */
  predicate OnBorder(pos: Vector2D, size: Vector2D, p: Vector2D)
  {
    var d := p.Minus(pos);
    && 0 <= d.x < size.x && 0 <= d.y < size.y
    && (d.x == 0 || d.x == size.x - 1 || d.y == 0 || d.y == size.y - 1)
  }

  lemma {:induction false} HorizontalEdgesOnBorder(pos: Vector2D, size: Vector2D, n: nat, c: PixelColor, w: PixelWrite)
    requires n <= size.x && size.y >= 1
    ensures w in HorizontalEdges(pos, size, n, c) ==> w.color == c && OnBorder(pos, size, w.pos)
    ensures w.color == c && 0 <= w.pos.x - pos.x < n && (w.pos.y - pos.y == 0 || w.pos.y - pos.y == size.y - 1)
      ==> w in HorizontalEdges(pos, size, n, c)
  {
    if n > 0 {
      HorizontalEdgesOnBorder(pos, size, n - 1, c, w);
    }
  }

  lemma {:induction false} VerticalEdgesOnBorder(pos: Vector2D, size: Vector2D, n: nat, c: PixelColor, w: PixelWrite)
    requires n <= size.y && size.x >= 1
    ensures w in VerticalEdges(pos, size, n, c) ==> w.color == c && OnBorder(pos, size, w.pos)
    ensures w.color == c && 1 <= w.pos.y - pos.y < n && (w.pos.x - pos.x == 0 || w.pos.x - pos.x == size.x - 1)
      ==> w in VerticalEdges(pos, size, n, c)
  {
    if n > 1 {
      VerticalEdgesOnBorder(pos, size, n - 1, c, w);
    }
  }

  /** For a box of at least one pixel, `DrawRectangle` writes exactly the
      border points in colour `c`, and so never a strictly interior point. */
  lemma DrawRectanglePoints(pos: Vector2D, size: Vector2D, c: PixelColor, w: PixelWrite)
    requires size.x >= 1 && size.y >= 1
    ensures w in DrawSpec(pos, size, c) <==> w.color == c && OnBorder(pos, size, w.pos)
  {
    HorizontalEdgesOnBorder(pos, size, size.x, c, w);
    VerticalEdgesOnBorder(pos, size, size.y - 1, c, w);
  }

  /** The globals `screen_config` and `screen_writer`. */
  class Screen {
    var screenConfig: FrameBufferConfig
    var screenWriter: FrameBufferWriter?

    constructor (cfg: FrameBufferConfig)
      ensures screenConfig == cfg && screenWriter == null
    {
      screenConfig := cfg;
      screenWriter := null;
    }

    /** `GetScreenSize`: the resolution, each cast to `int`. */
    function GetScreenSize(): (r: Vector2D)
      reads this
      ensures screenConfig.horizontalResolution < 0x8000_0000 ==> r.x == screenConfig.horizontalResolution
      ensures screenConfig.verticalResolution < 0x8000_0000 ==> r.y == screenConfig.verticalResolution
    {
      Vector2D(ToInt32(screenConfig.horizontalResolution), ToInt32(screenConfig.verticalResolution))
    }

    /** The format switch of `InitializeGraphics`: an RGB or BGR writer, or
        `exit(1)` for any other format, reported as `ok == false`. */
    method InitializeGraphics(cfg: FrameBufferConfig, mem: array<uint8>) returns (ok: bool)
      modifies this
      ensures screenConfig == cfg
      ensures ok <==> !cfg.pixelFormat.OtherPixelFormat?
      ensures cfg.pixelFormat == PixelRGBResv8BitPerColor ==>
        screenWriter != null && fresh(screenWriter) && screenWriter.kind == RGB && screenWriter.config == cfg
      ensures cfg.pixelFormat == PixelBGRResv8BitPerColor ==>
        screenWriter != null && fresh(screenWriter) && screenWriter.kind == BGR && screenWriter.config == cfg
      ensures !ok ==> screenWriter == old(screenWriter)
    {
      screenConfig := cfg;
      match cfg.pixelFormat {
        case PixelRGBResv8BitPerColor =>
          screenWriter := new FrameBufferWriter(RGB, cfg, mem);
          ok := true;
        case PixelBGRResv8BitPerColor =>
          screenWriter := new FrameBufferWriter(BGR, cfg, mem);
          ok := true;
        case OtherPixelFormat(_) =>
          ok := false;
      }
    }
  }
}
