/**
 * The two-context task switcher: the current context alternates between
 * task A and task B, and each switch hands the new and the old context to the
 * context-switch routine. A task-switch timer drives the alternation.
 */
module TaskSwitch {
  import opened Common
  import opened Timer
  import opened Task

  /** The context `SwitchTask` moves to from `current`: B after A, A after
      anything else. */
  function NextContext(current: TaskContext?, a: TaskContext, b: TaskContext): (r: TaskContext)
    requires a != b
    ensures r == a || r == b
    ensures r != current
    ensures current != a && current != b ==> r == a
  {
    if current == a then b else a
  }

  /** Two switches in a row return to the context started from. */
  lemma {:induction false} SwitchTwiceRestores(current: TaskContext, a: TaskContext, b: TaskContext)
    requires a != b && (current == a || current == b)
    ensures NextContext(NextContext(current, a, b), a, b) == current
  {
    var n := NextContext(current, a, b);
    assert n != current && (n == a || n == b);
  }

  /** The globals `task_a_ctx`, `task_b_ctx` and `currentTask`, and the
      recorded `SwitchContext(next, current)` calls. */
  class Switcher {
    const taskA: TaskContext
    const taskB: TaskContext
    var current: TaskContext?
    var switchCalls: seq<(TaskContext, TaskContext?)>

    ghost predicate Valid()
      reads this
    {
      taskA != taskB
    }

    /** `currentTask` has static storage and starts out null. */
    constructor ()
      ensures Valid() && fresh(taskA) && fresh(taskB)
      ensures current == null && switchCalls == []
    {
      taskA := new TaskContext();
      taskB := new TaskContext();
      current := null;
      switchCalls := [];
    }

    /** `InitializeTask`: makes task A current and arms the first
        task-switch timer one period after the current tick. */
    method InitializeTask(tm: TimerManager)
      requires Valid() && tm.Valid()
      requires tm.tick + tm.cfg.period <= UInt64Max
      modifies this`current, tm`timers
      ensures Valid() && tm.Valid()
      ensures current == taskA
      ensures tm.timers == old(tm.timers) + [TaskTimer(tm.cfg, tm.tick)]
      ensures tm.timers[|tm.timers| - 1].timeout == tm.CurrentTick() + tm.cfg.period
      ensures tm.timers[|tm.timers| - 1].value == tm.cfg.value
    {
      current := taskA;
      tm.AddTimer(TaskTimer(tm.cfg, tm.CurrentTick()));
    }

    /** `SwitchTask`: moves to the other context and records the call
        `SwitchContext(new current, old current)`. */
    method SwitchTask()
      requires Valid()
      modifies this`current, this`switchCalls
      ensures Valid()
      ensures current == NextContext(old(current), taskA, taskB)
      ensures switchCalls == old(switchCalls) + [(current, old(current))]
      ensures current != old(current)
    {
      var oldCurrent := current;
      if current == taskA {
        current := taskB;
      } else {
        current := taskA;
      }
      switchCalls := switchCalls + [(current, oldCurrent)];
    }
  }
}
