/**
 * The data shape of tasks: the packed register save area `TaskContext`, a
 * `Task` with its default level and running flag, and the initial state of
 * the `TaskManager` with one run queue per level. The scheduler operations
 * themselves are only declared in this revision.
 */
module Task {
  import opened Common
  import opened Layout
  import Timer

  /** `TaskContext`: 24 eight-byte registers, then the 512-byte FXSAVE area. */
  const TaskContextLayout: seq<Field> := [
    Field("cr3", 8), Field("rip", 8), Field("rflags", 8), Field("reserved1", 8),
    Field("cs", 8), Field("ss", 8), Field("fs", 8), Field("gs", 8),
    Field("rax", 8), Field("rbx", 8), Field("rcx", 8), Field("rdx", 8),
    Field("rdi", 8), Field("rsi", 8), Field("rsp", 8), Field("rbp", 8),
    Field("r8", 8), Field("r9", 8), Field("r10", 8), Field("r11", 8),
    Field("r12", 8), Field("r13", 8), Field("r14", 8), Field("r15", 8),
    Field("fxsave_area", 512)
  ]

  /** The offsets written beside the declaration, and the total size. */
  lemma TaskContextOffsets()
    ensures TaskContextLayout[0].name == "cr3" && OffsetAt(TaskContextLayout, 0) == 0x00
    ensures TaskContextLayout[4].name == "cs" && OffsetAt(TaskContextLayout, 4) == 0x20
    ensures TaskContextLayout[8].name == "rax" && OffsetAt(TaskContextLayout, 8) == 0x40
    ensures TaskContextLayout[16].name == "r8" && OffsetAt(TaskContextLayout, 16) == 0x80
    ensures TaskContextLayout[24].name == "fxsave_area" && OffsetAt(TaskContextLayout, 24) == 0xc0
    ensures SizeOf(TaskContextLayout) == 0xc0 + 512 == 704
  {
    var l := TaskContextLayout;
    assert forall k :: 0 <= k < 24 ==> l[k].size == 8;
    OffsetAtUniform(l, 4, 8);
    OffsetAtUniform(l, 8, 8);
    OffsetAtUniform(l, 16, 8);
    OffsetAtUniform(l, 24, 8);
  }

  /** A register save area, identified by its address. */
  class TaskContext {
    constructor ()
    {
    }
  }

  const DefaultLevel: nat := 1
  const DefaultStackBytes: nat := 4096
  const MaxLevel: nat := 3

  /** A kernel task. The message queue holds the messages not yet received. */
  class Task {
    const id: uint64
    var level: uint32
    var isRunning: bool
    var msgs: seq<Timer.Message>

    /** `Task(id)` with the default member initialisers. */
    constructor (taskId: uint64)
      ensures id == taskId && level == DefaultLevel && !isRunning && msgs == []
    {
      id := taskId;
      level := DefaultLevel;
      isRunning := false;
      msgs := [];
    }

    /** `SetLevel(int)`: the `int` argument is stored in an `unsigned int`. */
    method SetLevel(newLevel: int)
      requires -0x8000_0000 <= newLevel < 0x8000_0000
      modifies this`level
      ensures level == newLevel % 0x1_0000_0000
      ensures 0 <= newLevel ==> level == newLevel
    {
      level := newLevel % 0x1_0000_0000;
    }

    method SetRunning(running: bool)
      modifies this`isRunning
      ensures isRunning == running
    {
      isRunning := running;
    }

    function Level(): (l: uint32)
      reads this
    {
      level
    }

    function IsRunning(): bool
      reads this
    {
      isRunning
    }
  }

  /** The setters change only their own field, and the getters read back what
      was set. */
  method SetThenGet(t: Task, l: int, running: bool)
    requires 0 <= l < 0x8000_0000
    modifies t
    ensures t.Level() == l && t.IsRunning() == running
    ensures t.msgs == old(t.msgs)
  {
    t.SetLevel(l);
    t.SetRunning(running);
  }

  /** The task table, the id counter, and the run queues; `running[0]` is the
      lowest level and `running[MaxLevel]` the highest. */
  class TaskManager {
    var tasks: seq<Task>
    var latestId: uint64
    var running: seq<seq<Task>>
    var currentLevel: int
    var isLevelChanged: bool

    /** The default member initialisers. */
    constructor ()
      ensures tasks == [] && latestId == 0
      ensures |running| == MaxLevel + 1 == 4
      ensures forall lv :: 0 <= lv < |running| ==> running[lv] == []
      ensures currentLevel == MaxLevel && !isLevelChanged
    {
      tasks := [];
      latestId := 0;
      running := [[], [], [], []];
      currentLevel := MaxLevel;
      isLevelChanged := false;
    }
  }
}
