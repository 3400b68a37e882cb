# my_mikanos kernel cores in Dafny

This project models the small sequential cores of the my_mikanos hobby
x86-64 kernel and proves what they promise. One Dafny module covers each
core source file:

- **`Queue`** models `ArrayQueue<T>`: a fixed-capacity ring buffer over a borrowed array.
- **`Timer`** models the `TimerManager`: a heap of one-shot timers and one `Tick`. The tick drains the expired timers, re-arms the task-switch timer, and reports every other expired timer as a `kTimerTimeout` message.
- **`Task`** models the `TaskContext` register layout, and the `Task` and `TaskManager` defaults and accessors.
- **`TaskSwitch`** models the two-context ping-pong switcher of `task.cpp`.
- **`Layer`** models the `Layer` positions and the `LayerManager` id allocation, lookup, hide and reorder of the layer stack.
- **`Console`** models the text console: a cursor plus a row/column character buffer that scrolls.
- **`Acpi`** models the packed RSDP, description header and FADT layouts, the mod-256 byte sum, and RSDP validation (section 5.2.5.3 of the ACPI Specification).
- **`Interrupt`** models the split of a 64-bit IDT gate offset into three fields (Intel SDM Vol. 3A section 6.14.1), and the one table write of `InitializeInterrupt`.
- **`Pci`** models class-code matching, the register bit layouts and the BAR register offsets (PCI Local Bus Specification 3.0 section 6.2.5.1).
- **`MemoryManager`** models the `_KiB`/`_MiB`/`_GiB` literals, `FrameID`, and the frame and bitmap constants.
- **`NewlibSupport`** models the `sbrk` program-break allocator, plus `getpid` and `kill`.
- **`Rpn`** models the `rpn` application: reverse Polish evaluation over a 100-slot `long` stack.
- **`Graphics`** models the RGB and BGR pixel writers, `PixelAt` address arithmetic, `FillRectangle`, `DrawRectangle`, `GetScreenSize`, and the writer selection in `InitializeGraphics`.
- **`Window`** models the window pixel grid and its transparent copy onto a frame buffer.
- **`Mouse`** models the cursor glyph and the mouse observer: the clamp to the screen and the drag state machine.
- **`Font`** models the `WriteAscii` glyph decoding.
- **`Terminal`** models the blinking terminal cursor.

`Common` and `Layout` hold shared helpers:
- `Vector2D` and its component-wise min and max;
- the fixed-width integer types and the 32/64-bit signed casts;
- sequence removal, insertion and filtering;
- division facts;
- offsets of packed fields.

Drawing goes through an abstract pixel writer. Here it is `Graphics.PixelLog`, which records every `Write(pos, colour)` call in order. The drawing routines are proved to append exactly the writes a specification function describes, and lemmas characterise those writes as point sets.

Where a method changes state, its `ensures` clause ties the new state to a specification function of the old state:
- `Tick` to `Drain`;
- `PutString` to `PutStringSpec`;
- `Run` to `Eval`.

Lemmas then prove the promised properties about those functions.

The code is followed where the headers disagree with it:
- The `.cpp` bodies are modelled where `timer.hpp`, `graphics.hpp` and `terminal.hpp` come from another revision.
- `Write(Vector2D)` is used, not the header's `Write(int, int)`.
- `Tick` returns `bool`.
- `BlinkCursor` returns nothing.

## Model

| member | source | states |
|---|---|---|
| Queue.ArrayQueue.constructor | kernel/queue.hpp:37-44 | an empty queue over the first `size` slots; both positions 0; the buffer is not touched |
| Queue.ArrayQueue.FromArray | kernel/queue.hpp:31-35 | an empty queue whose capacity is the array length N |
| Queue.ArrayQueue.Count | kernel/queue.hpp:17-19 | the count never exceeds the capacity |
| Queue.ArrayQueue.Capacity | kernel/queue.hpp:20-22 | the capacity fixed at construction |
| Queue.ArrayQueue.Push | kernel/queue.hpp:46-61 | on a full queue: `Full`, no field or slot changed. Otherwise: the value stored at the old write position and no other slot touched, the count up by one, the write position advanced modulo the capacity, and the contents extended at the back. The ring invariant is kept. |
| Queue.ArrayQueue.Pop | kernel/queue.hpp:63-75 | on an empty queue: `Empty`, nothing changed. Otherwise: the count down by one, the read position advanced modulo the capacity, the array untouched, and the head dropped from the contents. The ring invariant is kept. |
| Queue.ArrayQueue.Front | kernel/queue.hpp:77-80 | the slot at the read position, which is the oldest value when the queue is not empty |
| Timer.NewTimer | kernel/timer.cpp:46-52 | the timeout and value are kept; the first 9 description bytes are copied and the tenth is NUL |
| Timer.TimeoutMessage | kernel/timer.cpp:82-87 | a `kTimerTimeout` message with the timer's timeout, value and NUL-terminated description |
| Timer.TaskTimer | kernel/timer.cpp:78 | the re-armed task timer: timeout `tick + period`, strictly in the future, with the task-timer value |
| Timer.Sentinel | kernel/timer.cpp:57 | the sentinel has the largest `unsigned long` timeout and value -1 |
| Timer.MinIndex | kernel/timer.cpp:69 | `top()` is an index of the heap |
| Timer.MinIndexIsTop | kernel/timer.cpp:69 | the top has the least timeout, and every timer before it a strictly larger one |
| Timer.MessagesOf | kernel/timer.cpp:82-89 | one message per reported timer, in the same order |
| Timer.SentinelKeepsDrainDefined | kernel/timer.cpp:68-72 | with the sentinel in the heap, some timer has not expired, so the loop never takes `top()` of an empty heap |
| Timer.DrainLeavesOnlyPending | kernel/timer.cpp:68-72 | after the tick every remaining timer has timeout greater than `tick_` |
| Timer.DrainKeepsPending | kernel/timer.cpp:68-92 | the heap afterwards is, as a multiset, exactly the unexpired timers plus one fresh task timer per expired task timer: unexpired timers are neither removed nor altered |
| Timer.DrainReportsUserTimers | kernel/timer.cpp:75-91 | the reported timers are, as a multiset, exactly the expired timers whose value is not the task-timer value |
| Timer.DrainFiredIffTaskTimerExpired | kernel/timer.cpp:64-95 | `Tick` returns true iff some expired timer had the task-timer value |
| Timer.DrainReportsInOrder | kernel/timer.cpp:68-92 | the reported timers come in pop order, by non-decreasing timeout, each at most `tick_` |
| Timer.TimerManager.constructor | kernel/timer.cpp:54-58 | the heap holds the sentinel alone; the tick is 0 |
| Timer.TimerManager.AddTimer | kernel/timer.cpp:60-62 | exactly one timer is added |
| Timer.TimerManager.PopExpired | kernel/timer.cpp:75-90 | a task-switch timer is replaced by one `period` ticks later and nothing is sent; any other timer is removed and exactly its timeout message is appended |
| Timer.TimerManager.Tick | kernel/timer.cpp:64-95 | the tick goes up by exactly one; the heap becomes `Drain`'s heap; one message per reported timer is appended to the queue; the result is `Drain`'s flag |
| Task.TaskContextOffsets | kernel/task.hpp:20-26 | cr3 at 0x00, cs at 0x20, rax at 0x40, r8 at 0x80 and `fxsave_area` at 0xc0; 704 bytes in all |
| Task.Task.constructor | kernel/task.hpp:60-66 | a new task has level `kDefaultLevel` = 1, is not running, and has no messages |
| Task.Task.SetLevel | kernel/task.hpp:54 | the level becomes the argument converted to `unsigned int`; only the level changes |
| Task.Task.SetRunning | kernel/task.hpp:55 | the running flag becomes the argument; only that flag changes |
| Task.SetThenGet | kernel/task.hpp:54-57 | `SetLevel(l)` then `Level()` gives l, and `SetRunning(b)` then `IsRunning()` gives b |
| Task.TaskManager.constructor | kernel/task.hpp:96-101 | no tasks, `latest_id_` 0, `kMaxLevel + 1` = 4 empty run queues, current level `kMaxLevel`, level not changed |
| TaskSwitch.NextContext | kernel/task.cpp:19-26 | the next context is one of the two contexts and never the current one |
| TaskSwitch.SwitchTwiceRestores | kernel/task.cpp:19-26 | two switches bring back the original context |
| TaskSwitch.Switcher.constructor | kernel/task.cpp:5-9 | two distinct contexts; no current context yet |
| TaskSwitch.Switcher.InitializeTask | kernel/task.cpp:11-17 | `task_a_ctx` becomes current; exactly one timer is added, at `CurrentTick() + kTaskTimerPeriod` with `kTaskTimerValue` |
| TaskSwitch.Switcher.SwitchTask | kernel/task.cpp:19-28 | the current context becomes the other one; `SwitchContext(new, old)` is recorded with two distinct contexts |
| Layer.Layer.constructor | kernel/layer.cpp:10-13 | the layer carries the given id |
| Layer.Layer.Move | kernel/layer.cpp:32-35 | the position becomes the argument |
| Layer.Layer.MoveRelative | kernel/layer.cpp:37-40 | the position moves by the difference |
| Layer.IndexOfId | kernel/layer.cpp:141-151 | the first layer with the id, or none when no layer has it |
| Layer.LayerManager.constructor | kernel/layer.hpp:52-54 | no layers, an empty stack, `latest_id_` 0 |
| Layer.LayerManager.NewLayer | kernel/layer.cpp:57-60 | the new id is the old `latest_id_ + 1` modulo 2^32; the layer is appended to the layers and not stacked; below 2^32 layers the ids are 1, 2, 3, ... and unique |
| Layer.LayerManager.FindLayer | kernel/layer.cpp:141-151 | null iff no layer has the id, otherwise the first layer with it |
| Layer.LayerManager.Move | kernel/layer.cpp:82-92 | only the found layer's position changes, to the new position; an unknown id changes nothing |
| Layer.LayerManager.MoveRelative | kernel/layer.cpp:94-103 | only the found layer's position changes, by the difference; an unknown id changes nothing |
| Layer.LayerManager.Hide | kernel/layer.cpp:133-139 | a stacked layer is removed and the others keep their order; otherwise the stack is unchanged |
| Layer.LayerManager.UpDown | kernel/layer.cpp:105-131 | a negative height acts as `Hide`: the layer is removed, and an unknown id changes nothing. An unstacked layer is inserted at `min(height, size)`. A stacked layer keeps the stack length, ends at `min(height, size - 1)` exactly once, and the others keep their relative order. |
| Console.NewLineSpec | kernel/console.cpp:29-50 | the column becomes 0. Above the last row the row goes up by one and the text is unchanged. On the last row every row takes the next one, the last row is zeroed, and the row stays. |
| Console.PutCharSpec | kernel/console.cpp:17-24 | a character before the last column is stored at the cursor, the column goes up by one, and no other cell changes; at the last column it is dropped |
| Console.PutStringSpec | kernel/console.cpp:15-27 | the cursor stays inside the screen and the buffer keeps its shape |
| Console.PutStringConcat | kernel/console.cpp:16-26 | characters are processed in order: a string is its prefix followed by the rest |
| Console.PutStringStopsAtNul | kernel/console.cpp:16 | nothing after the NUL terminator has an effect |
| Console.Console.constructor | kernel/console.cpp:6-13 | cursor at row 0, column 0; every buffer cell NUL |
| Console.Console.PutString | kernel/console.cpp:15-27 | the buffer and cursor become `PutStringSpec` of the old ones |
| Console.Console.NewLine | kernel/console.cpp:29-50 | the buffer and cursor become `NewLineSpec` of the old ones |
| Acpi.RsdpOffsets | kernel/acpi.hpp:15-27 | the RSDP fields sit at 0, 8, 9, 15, 16, 20, 24 and 32 with their sizes; the RSDP is 36 bytes |
| Acpi.RsdpFieldsPacked | kernel/acpi.hpp:15-27 | two different RSDP fields never overlap, and every field lies within the 36 bytes |
| Acpi.DescriptionHeaderOffsets | kernel/acpi.hpp:32-45 | length at offset 4, checksum at 9; 36 bytes |
| Acpi.FadtOffsets | kernel/acpi.hpp:56-64 | `pm_tmr_blk` at 76 and `flags` at 112; the header is a description header; 276 bytes |
| Acpi.SumBytes | kernel/acpi.cpp:17-25 | the sum of the first `bytes` bytes modulo 256 |
| Acpi.ByteSumConcat | kernel/acpi.cpp:18-25 | the byte sum of two concatenated ranges is the sum of their sums |
| Acpi.IsValid | kernel/acpi.cpp:35-54 | false on a bad signature, on a revision other than 2, or on either checksum failing; true iff all four checks pass |
| Acpi.ExtendedPartSumsToZero | kernel/acpi.cpp:44-51 | a valid RSDP's bytes 20 to 35 also sum to 0 modulo 256 |
| Acpi.ChecksumByteUnique | kernel/acpi.cpp:44-47 | only one value of a checksum byte makes the sum vanish |
| Interrupt.SetIDTEntry | kernel/interrupt.cpp:5-16 | low = offset & 0xffff, middle = (offset >> 16) & 0xffff, high = offset >> 32; attr and selector stored as given |
| Interrupt.OffsetRoundTrip | kernel/interrupt.cpp:12-14 | or-ing `low`, `middle << 16` and `high << 32` gives back the 64-bit offset |
| Interrupt.SetIDTEntryInjective | kernel/interrupt.cpp:12-14 | different offsets give different descriptors |
| Interrupt.Interrupts.constructor | kernel/interrupt.cpp:3 | a zeroed table of 256 descriptors |
| Interrupt.Interrupts.InitializeInterrupt | kernel/interrupt.cpp:34-44 | only `idt[0x40]` changes; it becomes a DPL-0 interrupt gate to the handler with `kKernelCS` |
| Pci.MatchBase | kernel/pci.hpp:14 | holds iff the base class is equal |
| Pci.MatchSub | kernel/pci.hpp:15 | holds iff base and sub class are equal |
| Pci.MatchInterface | kernel/pci.hpp:16 | holds iff the whole class code is equal |
| Pci.MatchRefines | kernel/pci.hpp:14-16 | the three-argument match implies the two-argument one, which implies the one-argument one |
| Pci.ClassCodeDecodeEncode | kernel/pci.hpp:48-56 | base at bits 31:24, sub at 23:16, interface at 15:8 and revision at 7:0 decode back |
| Pci.ClassCodeEncodeDecode | kernel/pci.hpp:48-56 | every register is the encoding of its decoded fields |
| Pci.BusNumbersDecodeEncode | kernel/pci.hpp:58-65 | subordinate at 23:16, secondary at 15:8 and revision at 7:0 decode back |
| Pci.BusNumbersEncodeDecode | kernel/pci.hpp:58-65 | the decoded fields re-encode the low 24 bits of the register |
| Pci.CalcBarAddress | kernel/pci.hpp:80-82 | `0x10 + 4 * i` exactly while it fits in a byte |
| Pci.BarAddresses | kernel/pci.hpp:80-82 | BAR0 at 0x10, BAR5 at 0x24, consecutive BARs 4 apart, all 4-aligned |
| MemoryManager.KiB | kernel/memory_manager.hpp:9-11 | n × 1024 when it fits in 64 bits |
| MemoryManager.MiB | kernel/memory_manager.hpp:13-15 | n × 2^20 when it fits in 64 bits |
| MemoryManager.GiB | kernel/memory_manager.hpp:17-19 | n × 2^30 when it fits in 64 bits |
| MemoryManager.FrameID.ID | kernel/memory_manager.hpp:27 | gives back the constructor argument |
| MemoryManager.FrameID.Frame | kernel/memory_manager.hpp:28 | frame-aligned, and `id * 4096` exactly when it fits |
| MemoryManager.MemoryConstants | kernel/memory_manager.hpp:22-70 | 4096-byte frames, 128 GiB, 2^25 frames, 64-bit map lines, 2^19 lines × 64 = frame count; the null frame id is the largest `size_t` |
| MemoryManager.OneBitPerFrame | kernel/memory_manager.hpp:45-70 | each frame has its own line and bit, and each line/bit names a frame |
| MemoryManager.FrameInjective | kernel/memory_manager.hpp:28 | distinct frames in range have distinct addresses |
| NewlibSupport.Newlib.constructor | kernel/newlib_support.c:8 | the break starts at the heap start and ends at the heap end |
| NewlibSupport.Newlib.Sbrk | kernel/newlib_support.c:10-21 | when the break is 0 or `break + incr >= end`: -1, `ENOMEM`, break unchanged. Otherwise: the old break is returned, the break moves by `incr` and stays below the end, errno is untouched. The end is never changed. |
| NewlibSupport.Newlib.Kill | kernel/newlib_support.c:27-30 | returns -1 and sets errno to `EINVAL` |
| NewlibSupport.GetPid | kernel/newlib_support.c:23-25 | always 1 |
| NewlibSupport.SbrkBlockInsideHeap | kernel/newlib_support.c:12-19 | a successful non-negative increment hands out a block inside the heap |
| NewlibSupport.SbrkBlocksAdjacent | kernel/newlib_support.c:10-21 | two successive successful calls hand out adjacent blocks |
| Rpn.Atol | apps/rpn/rpn.cpp:38 | the parsed value is a `long` |
| Rpn.AtolDigits | apps/rpn/rpn.cpp:38 | a string of digits parses to its decimal value, saturated |
| Rpn.AtolMinusDigits | apps/rpn/rpn.cpp:38 | '-' followed by digits parses to minus their value, saturated |
| Rpn.AtolShowLong | apps/rpn/rpn.cpp:38 | every `long` written in decimal parses back to itself |
| Rpn.Machine.constructor | apps/rpn/rpn.cpp:7-8 | a 100-slot stack, empty |
| Rpn.Machine.Push | apps/rpn/rpn.cpp:16-19 | `stack_ptr` up by one; the value appended |
| Rpn.Machine.Pop | apps/rpn/rpn.cpp:10-14 | the top returned; `stack_ptr` down by one; the top dropped |
| Rpn.Machine.PushThenPop | apps/rpn/rpn.cpp:10-19 | `Push(v)` then `Pop()` gives v and restores `stack_ptr` and the stack |
| Rpn.Machine.Apply | apps/rpn/rpn.cpp:26-40 | "+" pops b then a and pushes a+b; "-" pushes a-b; any other token pushes `atol(token)` |
| Rpn.Machine.Run | apps/rpn/rpn.cpp:21-46 | starts empty, skips `argv[0]`, evaluates the rest in order; 0 on an empty stack, else the top cast to `int` |
| Rpn.EvalDepth | apps/rpn/rpn.cpp:24-41 | each number raises the depth by one and each operator lowers it by one |
| Rpn.EvalKeepsBottom | apps/rpn/rpn.cpp:26-35 | operators use only the top two values; the rest of the stack is kept |
| Rpn.EmptyStackExitsZero | apps/rpn/rpn.cpp:42-44 | as many operators as numbers leave the stack empty, and the exit code is 0 |
| Rpn.SubtractionOrder | apps/rpn/rpn.cpp:24-40 | for all `long`s a and b, the arguments `a b -` run within the stack and leave exactly `a - b`, wrapped to a `long`: the deeper operand is the minuend |
| Rpn.ShowLongNotOperator | apps/rpn/rpn.cpp:26-31 | a number written in decimal never compares equal to "+" or "-" |
| Graphics.PixelLog.Write | kernel/graphics.hpp:19 | one write is recorded, after the earlier ones |
| Graphics.PixelAtAdjacent | kernel/graphics.hpp:22-24 | horizontal neighbours are 4 bytes apart, vertical ones `4 * pixels_per_scan_line` |
| Graphics.PixelSlotsDisjoint | kernel/graphics.hpp:22-24 | distinct pixels within the scan-line width have disjoint 4-byte slots |
| Graphics.ChannelBytes | kernel/graphics.cpp:4-16 | three bytes; green in the middle |
| Graphics.ChannelBytesRoundTrip | kernel/graphics.cpp:4-16 | each writer's bytes read back as the colour; BGR is RGB reversed |
| Graphics.FrameBufferWriter.constructor | kernel/graphics.hpp:17 | the writer keeps its kind and configuration |
| Graphics.FrameBufferWriter.Write | kernel/graphics.cpp:4-16 | bytes 0-2 of the slot hold the channels in the writer's order; the reserved byte 3 and every other byte are unchanged |
| Graphics.FillRectangle | kernel/graphics.cpp:44-55 | the writes are `FillSpec`: row by row, left to right |
| Graphics.FillRowsPoints | kernel/graphics.cpp:50-54 | a write happens iff it is `pos + (dx, dy)` inside the rectangle, in colour c |
| Graphics.FillRectanglePoints | kernel/graphics.cpp:44-55 | exactly the points `pos + (dx, dy)` with `0 <= dx < size.x` and `0 <= dy < size.y`; a non-positive size writes nothing |
| Graphics.FillRowsEmpty | kernel/graphics.cpp:50-51 | zero width or zero height writes nothing |
| Graphics.DrawRectangle | kernel/graphics.cpp:25-41 | the writes are the top and bottom rows, then the left and right columns for dy in [1, size.y - 1) |
| Graphics.HorizontalEdgesOnBorder | kernel/graphics.cpp:32-35 | the first loop writes exactly the top and bottom row points |
| Graphics.VerticalEdgesOnBorder | kernel/graphics.cpp:37-40 | the second loop writes exactly the left and right column points between them |
| Graphics.DrawRectanglePoints | kernel/graphics.cpp:25-41 | exactly the border points of the box are written, never a strictly interior one |
| Graphics.Screen.constructor | kernel/graphics.cpp:63-64 | the configuration is stored and no writer is selected yet |
| Graphics.Screen.GetScreenSize | kernel/graphics.cpp:66-71 | the horizontal and vertical resolutions, exact while they fit in an `int` |
| Graphics.Screen.InitializeGraphics | kernel/graphics.cpp:77-92 | the configuration is stored; an RGB or BGR writer is picked by pixel format; any other format fails (the `exit(1)`) |
| Window.FrameBuffer.Copy | kernel/window.cpp:28 | the copy is recorded at the given position |
| Window.Window.constructor | kernel/window.cpp:5-12 | `height` rows of `width` cells, all black; no transparent colour |
| Window.Window.Width | kernel/window.cpp:65-67 | the length of every row |
| Window.Window.Height | kernel/window.cpp:69-71 | the number of rows |
| Window.Window.Write | kernel/window.cpp:52-55 | the cell gets the colour and no other cell changes |
| Window.WriteThenAt | kernel/window.cpp:52-59 | `Write(pos, c)` then `At(pos)` gives c |
| Window.Window.SetTransparentColor | kernel/window.cpp:44-46 | the option is stored as given |
| Window.Window.DrawTo | kernel/window.cpp:26-42 | without a transparent colour only the copy is recorded; with one, the writes are `GridWrites` |
| Window.RowWritesSound | kernel/window.cpp:35-40 | every write of a row is a non-transparent cell, at `position` plus its coordinates, in its colour |
| Window.RowWritesComplete | kernel/window.cpp:35-40 | every non-transparent cell of the row is written |
| Window.GridWritesSound | kernel/window.cpp:34-41 | every write is a non-transparent cell, at `position + (x, y)`, in its colour |
| Window.GridWritesComplete | kernel/window.cpp:34-41 | every non-transparent cell is written |
| Window.WindowWriter.constructor | kernel/window.hpp:15 | the writer belongs to the given window |
| Window.WindowWriter.Write | kernel/window.hpp:17-19 | forwards to the window's `Write` |
| Window.WindowWriter.Width | kernel/window.hpp:21 | the window's width |
| Window.WindowWriter.Height | kernel/window.hpp:22 | the window's height |
| Mouse.ShapeSize | kernel/mouse.cpp:18-39 | the glyph has 24 rows of 15 characters |
| Mouse.CursorColor | kernel/mouse.cpp:103-111 | '@' is black, '.' white, and exactly the other characters are transparent |
| Mouse.DrawMouseCursor | kernel/mouse.cpp:100-114 | one write per glyph pixel, row by row |
| Mouse.DrawCursorPixel | kernel/mouse.cpp:103-111 | one write at `position + (dx, dy)` in the character's colour |
| Mouse.CursorPixel | kernel/mouse.cpp:100-114 | pixel (dx, dy) is written at `position + (dx, dy)` in its colour; rows 20 to 23 are transparent |
| Mouse.CursorPixelsDistinct | kernel/mouse.cpp:101-104 | every pixel is written at a different point |
| Mouse.ClampToScreen | kernel/mouse.cpp:47-49 | per component: unchanged when already in [0, screen - 1]; 0 when negative or when the screen has no pixels that way; screen - 1 when at or past the far edge of a non-empty screen |
| Mouse.Mouse.constructor | kernel/mouse.cpp:42-43 | drag id and previous buttons 0; cursor at (200, 200) |
| Mouse.Mouse.Observe | kernel/mouse.cpp:41-76 | position clamped. The mouse layer moves to it. Press edge: drag id taken from a draggable hit layer, otherwise kept. Held with drag id > 0: that layer moves by the clamped difference. Release edge: drag id 0. Previous buttons become buttons; only bit 0 is read. |
| Font.BitTestMeaning | kernel/font.cpp:39 | `(row << dx) & 0x80` holds iff dx < 8 and bit `7 - dx` of the row is set |
| Font.WriteAscii | kernel/font.cpp:23-44 | a character other than 'A' writes nothing; 'A' writes `GlyphWrites` of `kFontA` |
| Font.RowWritesSound | kernel/font.cpp:38-42 | each write of a glyph row is at a set bit of that row, in the colour |
| Font.RowWritesComplete | kernel/font.cpp:38-42 | every set bit of the row is written |
| Font.GlyphWritesSound | kernel/font.cpp:37-43 | each write is at a set bit of the glyph, in the colour |
| Font.GlyphWritesComplete | kernel/font.cpp:37-43 | every set bit of the glyph is written |
| Font.GlyphPixels | kernel/font.cpp:37-43 | any glyph writes `(x + dx, y + dy)` iff bit `7 - dx` of its row `dy` is set, in the colour, and only for dx < 8 |
| Font.GlyphAPixels | kernel/font.cpp:4-43 | 'A' writes `(x + dx, y + dy)` iff bit `7 - dx` of `kFontA[dy]` is set. Every write is in the colour and has dx < 8. Nothing is written on rows 0, 14 and 15. |
| Terminal.ToColor | kernel/terminal.cpp:28 | `0xRRGGBB` splits into its three channels |
| Terminal.CursorColorCode | kernel/terminal.cpp:28 | 0xffffff when visible, 0 otherwise |
| Terminal.CursorBlockPos | kernel/terminal.cpp:29 | the block starts at `(4 + 8 * x, 5 + 16 * y)` |
| Terminal.Terminal.constructor | kernel/terminal.hpp:24-25 | cursor at (0, 0), not visible |
| Terminal.Terminal.DrawCursor | kernel/terminal.cpp:27-31 | fills the 7 × 15 block at the cursor in the visibility's colour |
| Terminal.Terminal.BlinkCursor | kernel/terminal.cpp:22-25 | visibility is negated and the block redrawn in the new colour |
| Terminal.Terminal.BlinkTwice | kernel/terminal.cpp:22-25 | two blinks restore the visibility |
| Terminal.CursorBlockPixels | kernel/terminal.cpp:28-30 | exactly the pixels of the 7 × 15 block are written, white when visible and black otherwise |
| Terminal.CursorBlocksDisjoint | kernel/terminal.cpp:29-30 | the blocks of two different cells share no pixel |

## Left out

- LAPIC timer registers and calibration, `NotifyEndOfInterrupt`, `LoadIDT`, `SwitchContext` and the other assembly routines: hardware access. `SwitchContext` is only recorded as a call.
- `cli`/`sti`, `IntHandlerXHCI`, `LAPICTimerOnInterrupt` and the `TaskTerminal` receive/sleep loop: concurrency with interrupts.
- The `TaskManager` scheduler methods and `Task::InitContext`/`Sleep`/`Wakeup`/`ReceiveMessage` are declared in task.hpp, and task.cpp defines none of them. `Task::Task` has no definition in task.cpp either, so the new task holds only the member initialisers of task.hpp.
- `LayerManager::Draw(area)`, `LayerManager::Draw(id)` and `Layer::DrawTo` (layer.cpp:42-46, 62-80): they forward to a three-argument `Window::DrawTo(dst, position, area)` that window.hpp declares and window.cpp does not define. `Draw(id)` never sets `isDraw`, so it draws nothing. The repaints that `Move` and `MoveRelative` trigger are therefore not modelled; only the positions are.
- The pixel copy done by `FrameBuffer` and the window shadow buffer are outside this model. `Window::DrawTo` records the copy's position only, and `Window::Write` does not mirror into a shadow buffer.
- `MAKE_LOG`/`Log`: logging.
- `acpi::Initialize` (acpi.cpp:56-61) only calls `IsValid` and stops the kernel with `exit(1)` when it fails; the check is modelled, the halt is not. `acpi::WaitMilliseconds`, the PCI port I/O functions and `BitmapMemoryManager::Allocate`/`Free` are declared in acpi.hpp, pci.hpp and memory_manager.hpp and defined in files outside this model.
- The apps other than `rpn` and the boot code in `main.cpp`: outside this model.
- `InitializeMouse` (mouse.cpp:82-97), `DrawDesktop` (graphics.cpp:97-118) and `Terminal::Terminal` (terminal.cpp:7-20): they create windows and set up layers through `ToplevelWindow`, `DrawTerminal` and the USB driver's observer hook, which are outside this model. Their pieces are modelled: `DrawMouseCursor`, `FillRectangle`, `DrawRectangle`, `NewLayer`, `SetTransparentColor`, and the cursor starting at (200, 200).
- console.hpp, interrupt.hpp, frame_buffer_config.hpp and the header defining `Vector2D` are not part of this model. `kRows`/`kColumns` of the console are constructor parameters. `MakeIDTAttr` is a record of type and DPL, not its bit packing. `kXHCI` is 0x40, from the comment in interrupt.cpp. `ToColor` is taken as the split of `0xRRGGBB`.
- `kTaskTimerPeriod`, `kTaskTimerValue` and `kTaskDescription` are used in timer.cpp and task.cpp and come from a header this model does not cover. They are configuration of the timer manager, with a positive period.
- Console.Console.PutString: the glyph drawing (`WriteAscii` per character) is not modelled; only the buffer and the cursor.
- Console.Console.NewLine: the background fill and the repaint of the scrolled rows (`WriteString`) are not modelled; only the buffer and the cursor.
- Timer.TimerManager.Tick: requires the 64-bit tick to stay a task period below wrap-around.
- TaskSwitch.Switcher.InitializeTask: requires the current tick to stay a task period below 2^64. task.cpp:15 adds `CurrentTick()` and `kTaskTimerPeriod` as `unsigned long`s (timer.hpp:14, 17), and that sum wraps modulo 2^64; the model does not build a wrapped timeout.
- Timer.TaskTimer and Timer.TimerManager.PopExpired: the same bound on `tick + period` (timer.cpp:75-78). They are pieces of `Tick`, whose bound implies theirs.
- Timer.MinIndex: `std::priority_queue` does not fix the order of equal timeouts. The model takes the first pushed.
- Timer.Sentinel: `memcpy` reads 10 bytes of the 8-byte literal "defalut"; the two bytes beyond it are taken as NUL.
- Layer.LayerManager.NewLayer: the new layer's position is left unconstrained. `Layer::Layer` (layer.cpp:10-13) initialises only `id_`, and `pos_` (layer.hpp:28) has no initialiser, so its value is indeterminate.
- Layer.LayerManager.UpDown: requires a known id when the height is at least 0. There the program searches the stack for a null pointer, finds none and inserts it (layer.cpp:114-122). A negative height with an unknown id is modelled: nothing changes.
- Rpn.Machine.Run: requires that the stack never underflows or overflows; both are undefined behaviour in the program. `long` arithmetic wraps in two's complement.
- Rpn.Atol: a saturating decimal parse of optional whitespace, a sign and digits; locale and `errno` are not modelled. `strcmp` is sequence equality.
- NewlibSupport.Newlib.Sbrk: pointer arithmetic is modulo 2^64, and the comparison is unsigned.
- Graphics.PixelAt: unbounded integers; no 32-bit `int` wrap-around in `pixels_per_scan_line * y + x`.
- Graphics.DrawRectanglePoints: requires a size of at least one pixel each way; with `size.y <= 0` the first loop writes rows outside the box.
- Mouse.Mouse.Observe: `FindLayerByPosition` and `IsDraggable` are called (mouse.cpp:60-61) but defined neither in layer.cpp nor in mouse.cpp. What they return is given as the `hit` parameter.
- Coordinate arithmetic is on unbounded integers. The program adds 32-bit `int` coordinates, and overflow is undefined behaviour there; this model does not represent it. This covers `Vector2D` `+` and `-`, `pos_ += pos_diff` (layer.cpp:38), the mouse move (mouse.cpp:47), `pos + (dx, dy)` in the rectangle loops (graphics.cpp:33-39, 52), `x + dx` in `WriteAscii` (font.cpp:40), the cursor block position (terminal.cpp:29) and the positions written by `Window::DrawTo` and `DrawMouseCursor`.
- Graphics.FrameBufferWriter.constructor: the writer keeps a copy of the configuration. The program's `PixelWriter` holds a `const FrameBufferConfig&` (graphics.hpp:17, 27) bound to `InitializeGraphics`'s parameter (graphics.cpp:77-92). Aliasing with that object is not modelled: a later change to it would not be seen by the model's writer.
