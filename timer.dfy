/**
 * The timer manager: a min-ordered heap of one-shot timers, a tick counter
 * advanced once per LAPIC timer interrupt, and a shared message queue that
 * receives one `kTimerTimeout` message per expired ordinary timer. One timer
 * value is reserved for the task-switch timer, which is re-armed instead of
 * being reported.
 */
module Timer {
  import opened Common

  /** `TIMER_DESC_LENGTH`: description bytes including the NUL terminator. */
  const TimerDescLength: nat := 10

  /** A `char[TIMER_DESC_LENGTH]` description. */
  type TimerDesc = s: seq<char> | |s| == TimerDescLength
    witness ['\0', '\0', '\0', '\0', '\0', '\0', '\0', '\0', '\0', '\0']

  datatype Timer = Timer(timeout: uint64, value: int, description: TimerDesc)

  /** What every constructed timer satisfies: a NUL-terminated 10-byte
      description and a value that fits in an `int`. */
  predicate WellFormed(t: Timer)
  {
    && t.description[TimerDescLength - 1] == '\0'
    && -0x8000_0000 <= t.value < 0x8000_0000
  }

  /** `Timer::Timer`: copies exactly 10 description bytes and forces the last
      one to NUL. The caller provides at least 10 readable bytes. */
  function NewTimer(timeout: uint64, value: int, description: seq<char>): (t: Timer)
    requires |description| >= TimerDescLength
    requires -0x8000_0000 <= value < 0x8000_0000
    ensures WellFormed(t) && t.timeout == timeout && t.value == value
    ensures t.description[..TimerDescLength - 1] == description[..TimerDescLength - 1]
  {
    Timer(timeout, value, description[..TimerDescLength - 1] + ['\0'])
  }

  /** The kernel `Message`: the two kinds this revision defines. */
  datatype Message =
    | InterruptXHCI
    | TimerTimeout(timeout: uint64, value: int, description: TimerDesc)

  /** The message `Tick` builds for an expired ordinary timer. */
  function TimeoutMessage(t: Timer): (m: Message)
    ensures m.TimerTimeout? && m.timeout == t.timeout && m.value == t.value
    ensures m.description[TimerDescLength - 1] == '\0'
    ensures m.description[..TimerDescLength - 1] == t.description[..TimerDescLength - 1]
    ensures WellFormed(t) ==> m.description == t.description
  {
    TimerTimeout(t.timeout, t.value, t.description[..TimerDescLength - 1] + ['\0'])
  }

  /** The `std::deque<Message>` shared between the timer manager and the
      kernel's main loop. */
  class MessageQueue {
    var items: seq<Message>

    constructor ()
      ensures items == []
    {
      items := [];
    }
  }

  /** `kTaskTimerPeriod`, `kTaskTimerValue` and `kTaskDescription`. */
  datatype TaskTimerConfig = TaskTimerConfig(period: nat, value: int, description: seq<char>)

  predicate ConfigOk(cfg: TaskTimerConfig)
  {
    cfg.period > 0 && |cfg.description| >= TimerDescLength && -0x8000_0000 <= cfg.value < 0x8000_0000
  }

  /** The task-switch timer armed `period` ticks after `tick`. */
  function TaskTimer(cfg: TaskTimerConfig, tick: nat): (t: Timer)
    requires ConfigOk(cfg) && tick + cfg.period <= UInt64Max
    ensures WellFormed(t) && t.timeout == tick + cfg.period > tick && t.value == cfg.value
  {
    NewTimer(tick + cfg.period, cfg.value, cfg.description)
  }

  /** The sentinel that `TimerManager`'s constructor pushes. The literal
      "defalut" occupies 8 bytes; the two further bytes that memcpy reads are
      taken as NUL. */
  const SentinelDescription: seq<char> := "defalut" + ['\0', '\0', '\0']

  function Sentinel(): (t: Timer)
    ensures WellFormed(t) && t.timeout == UInt64Max && t.value == -1
  {
    NewTimer(UInt64Max, -1, SentinelDescription)
  }

  /** The filters that classify the heap at a given tick. */
  function IsExpired(tick: nat): Timer -> bool
  {
    (t: Timer) => t.timeout <= tick
  }

  function IsPending(tick: nat): Timer -> bool
  {
    (t: Timer) => t.timeout > tick
  }

  function IsTaskExpired(tick: nat, v: int): Timer -> bool
  {
    (t: Timer) => t.timeout <= tick && t.value == v
  }

  function IsUserExpired(tick: nat, v: int): Timer -> bool
  {
    (t: Timer) => t.timeout <= tick && t.value != v
  }

  function Expired(ts: seq<Timer>, tick: nat): seq<Timer>
  {
    Filter(ts, IsExpired(tick))
  }

  function Pending(ts: seq<Timer>, tick: nat): seq<Timer>
  {
    Filter(ts, IsPending(tick))
  }

  /** Expired task-switch timers. */
  function TaskExpired(ts: seq<Timer>, tick: nat, v: int): seq<Timer>
  {
    Filter(ts, IsTaskExpired(tick, v))
  }

  /** Expired ordinary timers, each of which is reported by a message. */
  function UserExpired(ts: seq<Timer>, tick: nat, v: int): seq<Timer>
  {
    Filter(ts, IsUserExpired(tick, v))
  }

  /** `priority_queue::top()`: the smallest timeout; among equal timeouts the
      one that was pushed first. */
  function MinIndex(ts: seq<Timer>): (i: nat)
    requires |ts| > 0
    ensures i < |ts|
  {
    if |ts| == 1 then 0
    else
      var k := MinIndex(ts[..|ts| - 1]);
      if ts[|ts| - 1].timeout < ts[k].timeout then |ts| - 1 else k
  }

  /** The top has the smallest timeout, and every timer before it a larger
      one. */
  lemma {:induction false} MinIndexIsTop(ts: seq<Timer>)
    requires |ts| > 0
    ensures forall j :: 0 <= j < |ts| ==> ts[MinIndex(ts)].timeout <= ts[j].timeout
    ensures forall j :: 0 <= j < MinIndex(ts) ==> ts[j].timeout > ts[MinIndex(ts)].timeout
  {
    if |ts| > 1 {
      var p := ts[..|ts| - 1];
      MinIndexIsTop(p);
      assert forall j :: 0 <= j < |p| ==> p[j] == ts[j];
    }
  }

  /** The messages reporting the given timers, in the same order. */
  function MessagesOf(ts: seq<Timer>): (ms: seq<Message>)
    ensures |ms| == |ts|
    ensures forall k :: 0 <= k < |ts| ==> ms[k] == TimeoutMessage(ts[k])
  {
    seq(|ts|, k requires 0 <= k < |ts| => TimeoutMessage(ts[k]))
  }

  /** Every constructed timer of a heap is well formed. */
  predicate AllWellFormed(ts: seq<Timer>)
  {
    forall t | t in ts :: WellFormed(t)
  }

  /** What one `Tick` leaves behind: the heap, the expired ordinary timers in
      the order they were popped (each becomes one message) and the returned
      flag. */
  datatype DrainResult = DrainResult(timers: seq<Timer>, reported: seq<Timer>, fired: bool)

  predicate DrainOk(ts: seq<Timer>, tick: nat, cfg: TaskTimerConfig)
  {
    && ConfigOk(cfg)
    && tick + cfg.period <= UInt64Max
    && |Expired(ts, tick)| < |ts|
  }

  /** The loop of `TimerManager::Tick` after the tick was advanced to `tick`:
      repeatedly take the top timer while it has expired; a task-switch timer
      is replaced by a new one `period` ticks ahead and sets the flag, any
      other timer is removed and reported. The heap always keeps an
      unexpired timer (the sentinel), so the top is never taken of an empty
      heap. */
  function Drain(ts: seq<Timer>, tick: nat, cfg: TaskTimerConfig): DrainResult
    requires DrainOk(ts, tick, cfg)
    decreases |Expired(ts, tick)|
  {
    var i := MinIndex(ts);
    var t := ts[i];
    if t.timeout > tick then
      DrainResult(ts, [], false)
    else
      DrainStep(ts, tick, cfg, i);
      if t.value == cfg.value then
        var r := Drain(RemoveAt(ts, i) + [TaskTimer(cfg, tick)], tick, cfg);
        DrainResult(r.timers, r.reported, true)
      else
        var r := Drain(RemoveAt(ts, i), tick, cfg);
        DrainResult(r.timers, [t] + r.reported, r.fired)
  }

  /** Each step of `Drain` keeps its precondition and removes one expired
      timer. */
  lemma DrainStep(ts: seq<Timer>, tick: nat, cfg: TaskTimerConfig, i: nat)
    requires DrainOk(ts, tick, cfg) && i < |ts| && ts[i].timeout <= tick
    ensures DrainOk(RemoveAt(ts, i), tick, cfg)
    ensures |Expired(RemoveAt(ts, i), tick)| == |Expired(ts, tick)| - 1
    ensures DrainOk(RemoveAt(ts, i) + [TaskTimer(cfg, tick)], tick, cfg)
    ensures |Expired(RemoveAt(ts, i) + [TaskTimer(cfg, tick)], tick)| == |Expired(ts, tick)| - 1
  {
    FilterRemoveAt(ts, i, IsExpired(tick));
    FilterAppend(RemoveAt(ts, i), TaskTimer(cfg, tick), IsExpired(tick));
  }

  /** Within one heap, expired and pending timers partition the heap. */
  lemma {:induction false} ExpiredPendingSplit(ts: seq<Timer>, tick: nat)
    ensures |Expired(ts, tick)| + |Pending(ts, tick)| == |ts|
  {
    if ts != [] {
      ExpiredPendingSplit(ts[1..], tick);
    }
  }

  /** A timer whose timeout lies beyond `tick` keeps `Drain` well defined. */
  lemma PendingWitness(ts: seq<Timer>, tick: nat, k: nat)
    requires k < |ts| && ts[k].timeout > tick
    ensures |Expired(ts, tick)| < |ts|
  {
    ExpiredPendingSplit(ts, tick);
    FilterRemoveAt(ts, k, IsPending(tick));
  }

  // ---------------------------------------------------------------------
  // Properties of one tick
  // ---------------------------------------------------------------------

  /** After the drain every timer left in the heap lies in the future. */
  lemma {:induction false} DrainLeavesOnlyPending(ts: seq<Timer>, tick: nat, cfg: TaskTimerConfig)
    requires DrainOk(ts, tick, cfg)
    ensures forall t | t in Drain(ts, tick, cfg).timers :: t.timeout > tick
    decreases |Expired(ts, tick)|
  {
    var i := MinIndex(ts);
    MinIndexIsTop(ts);
    if ts[i].timeout <= tick {
      DrainStep(ts, tick, cfg, i);
      if ts[i].value == cfg.value {
        DrainLeavesOnlyPending(RemoveAt(ts, i) + [TaskTimer(cfg, tick)], tick, cfg);
      } else {
        DrainLeavesOnlyPending(RemoveAt(ts, i), tick, cfg);
      }
    }
  }

  /** `n` copies of `t`. */
  function Repeat(t: Timer, n: nat): (s: seq<Timer>)
    ensures |s| == n
  {
    if n == 0 then [] else Repeat(t, n - 1) + [t]
  }

  /** The heap after the drain: exactly the timers that had not expired
      (none removed, none altered) plus one fresh task-switch timer for each
      expired task-switch timer. */
  lemma {:induction false} DrainKeepsPending(ts: seq<Timer>, tick: nat, cfg: TaskTimerConfig)
    requires DrainOk(ts, tick, cfg)
    ensures multiset(Drain(ts, tick, cfg).timers)
         == multiset(Pending(ts, tick)) + multiset(Repeat(TaskTimer(cfg, tick), |TaskExpired(ts, tick, cfg.value)|))
    decreases |Expired(ts, tick)|
  {
    var i := MinIndex(ts);
    MinIndexIsTop(ts);
    var pend := IsPending(tick);
    var task := IsTaskExpired(tick, cfg.value);
    if ts[i].timeout > tick {
      FilterAll(ts, pend);
      FilterNone(ts, task);
    } else {
      DrainStep(ts, tick, cfg, i);
      var rest := RemoveAt(ts, i);
      FilterRemoveAt(ts, i, pend);
      FilterRemoveAt(ts, i, task);
      if ts[i].value == cfg.value {
        var rt := TaskTimer(cfg, tick);
        DrainKeepsPending(rest + [rt], tick, cfg);
        FilterAppend(rest, rt, pend);
        FilterAppend(rest, rt, task);
      } else {
        DrainKeepsPending(rest, tick, cfg);
      }
    }
  }

  /** The reported timers are exactly the expired ordinary timers: no
      message for a task-switch timer, one for each other expired timer. */
  lemma {:induction false} DrainReportsUserTimers(ts: seq<Timer>, tick: nat, cfg: TaskTimerConfig)
    requires DrainOk(ts, tick, cfg)
    ensures multiset(Drain(ts, tick, cfg).reported) == multiset(UserExpired(ts, tick, cfg.value))
    decreases |Expired(ts, tick)|
  {
    var user := IsUserExpired(tick, cfg.value);
    var i := MinIndex(ts);
    MinIndexIsTop(ts);
    if ts[i].timeout > tick {
      FilterNone(ts, user);
    } else {
      DrainStep(ts, tick, cfg, i);
      var rest := RemoveAt(ts, i);
      FilterRemoveAt(ts, i, user);
      if ts[i].value == cfg.value {
        var rt := TaskTimer(cfg, tick);
        DrainReportsUserTimers(rest + [rt], tick, cfg);
        FilterAppend(rest, rt, user);
      } else {
        DrainReportsUserTimers(rest, tick, cfg);
      }
    }
  }

  /** `Tick` returns true exactly when some task-switch timer had expired. */
  lemma {:induction false} DrainFiredIffTaskTimerExpired(ts: seq<Timer>, tick: nat, cfg: TaskTimerConfig)
    requires DrainOk(ts, tick, cfg)
    ensures Drain(ts, tick, cfg).fired <==> |TaskExpired(ts, tick, cfg.value)| > 0
    decreases |Expired(ts, tick)|
  {
    var task := IsTaskExpired(tick, cfg.value);
    var i := MinIndex(ts);
    MinIndexIsTop(ts);
    if ts[i].timeout > tick {
      FilterNone(ts, task);
    } else {
      DrainStep(ts, tick, cfg, i);
      FilterRemoveAt(ts, i, task);
      if ts[i].value != cfg.value {
        DrainFiredIffTaskTimerExpired(RemoveAt(ts, i), tick, cfg);
      }
    }
  }

  /** Timers are reported in pop order: by non-decreasing timeout, none
      earlier than a bound that every timer of the heap respects. */
  lemma {:induction false} DrainReportsInOrder(ts: seq<Timer>, tick: nat, cfg: TaskTimerConfig, bound: nat)
    requires DrainOk(ts, tick, cfg)
    requires forall t | t in ts :: t.timeout >= bound
    ensures forall t | t in Drain(ts, tick, cfg).reported :: bound <= t.timeout <= tick
    ensures forall j, k :: 0 <= j < k < |Drain(ts, tick, cfg).reported| ==>
      Drain(ts, tick, cfg).reported[j].timeout <= Drain(ts, tick, cfg).reported[k].timeout
    decreases |Expired(ts, tick)|
  {
    var i := MinIndex(ts);
    MinIndexIsTop(ts);
    if ts[i].timeout <= tick {
      DrainStep(ts, tick, cfg, i);
      var rest := RemoveAt(ts, i);
      RemoveAtSubset(ts, i);
      if ts[i].value == cfg.value {
        DrainReportsInOrder(rest + [TaskTimer(cfg, tick)], tick, cfg, bound);
      } else {
        DrainReportsInOrder(rest, tick, cfg, ts[i].timeout);
      }
    }
  }

  // ---------------------------------------------------------------------
  // The manager
  // ---------------------------------------------------------------------

  class TimerManager {
    var tick: nat
    var timers: seq<Timer>
    const msgQueue: MessageQueue
    const cfg: TaskTimerConfig

    ghost predicate Valid()
      reads this
    {
      && ConfigOk(cfg)
      && AllWellFormed(timers)
      && Sentinel() in timers
      && tick < UInt64Max
    }

    /** `TimerManager(msg_queue)`: the heap holds the sentinel alone. */
    constructor (queue: MessageQueue, config: TaskTimerConfig)
      requires ConfigOk(config)
      ensures Valid() && tick == 0 && timers == [Sentinel()]
      ensures msgQueue == queue && cfg == config
    {
      tick := 0;
      timers := [Sentinel()];
      msgQueue := queue;
      cfg := config;
    }

    function CurrentTick(): nat
      reads this
    {
      tick
    }

    method AddTimer(timer: Timer)
      requires Valid() && WellFormed(timer)
      modifies this`timers
      ensures Valid()
      ensures timers == old(timers) + [timer]
    {
      timers := timers + [timer];
    }

    /** `TimerManager::Tick`. The 64-bit tick counter is assumed not to come
        within one task period of wrapping around. */
    method Tick() returns (taskTimerTimeout: bool)
      requires Valid()
      requires tick + 1 + cfg.period <= UInt64Max
      modifies this`tick, this`timers, msgQueue
      ensures Valid()
      ensures tick == old(tick) + 1
      ensures DrainOk(old(timers), tick, cfg)
      ensures timers == Drain(old(timers), tick, cfg).timers
      ensures msgQueue.items == old(msgQueue.items) + MessagesOf(Drain(old(timers), tick, cfg).reported)
      ensures taskTimerTimeout == Drain(old(timers), tick, cfg).fired
    {
      tick := tick + 1;
      var now := tick;
      ghost var start := timers;
      ghost var popped: seq<Timer> := [];
      SentinelKeepsDrainDefined(timers, now, cfg);
      taskTimerTimeout := false;
      while true
        invariant tick == now == old(tick) + 1
        invariant HeapValid(timers, now, cfg)
        invariant DrainSplit(start, timers, popped, taskTimerTimeout, now, cfg)
        invariant msgQueue.items == old(msgQueue.items) + MessagesOf(popped)
        decreases |Expired(timers, now)|
      {
        var i := MinIndex(timers);
        if timers[i].timeout > now {
          DrainDone(timers, now, cfg);
          break;
        }
        taskTimerTimeout, popped := PopStep(now, start, popped, taskTimerTimeout, old(msgQueue.items));
      }
    }

    /** One pass of the loop of `Tick` that pops an expired timer: it keeps
        the loop invariant and leaves fewer expired timers in the heap. */
    method PopStep(now: nat, ghost start: seq<Timer>, ghost popped: seq<Timer>, fired: bool, ghost sent: seq<Message>)
      returns (firedAfter: bool, ghost poppedAfter: seq<Timer>)
      requires ConfigOk(cfg) && now < UInt64Max && now + cfg.period <= UInt64Max
      requires HeapValid(timers, now, cfg) && DrainSplit(start, timers, popped, fired, now, cfg)
      requires msgQueue.items == sent + MessagesOf(popped)
      requires timers[MinIndex(timers)].timeout <= now
      modifies this`timers, msgQueue
      ensures HeapValid(timers, now, cfg) && DrainSplit(start, timers, poppedAfter, firedAfter, now, cfg)
      ensures msgQueue.items == sent + MessagesOf(poppedAfter)
      ensures |Expired(timers, now)| < |Expired(old(timers), now)|
    {
      var i := MinIndex(timers);
      var t := timers[i];
      DrainSplitStep(start, timers, popped, fired, now, cfg);
      StepKeepsHeapValid(timers, i, now, cfg);
      var isTask := PopExpired(now, i);
      if isTask {
        firedAfter, poppedAfter := true, popped;
      } else {
        MessagesOfAppend(popped, t);
        firedAfter, poppedAfter := fired, popped + [t];
      }
    }

    /** The body of the loop of `Tick` for an expired timer at index `i`: a
        task-switch timer is re-armed `period` ticks later, any other timer
        is removed and its timeout message sent. */
    method PopExpired(now: nat, i: nat) returns (isTask: bool)
      requires i < |timers| && ConfigOk(cfg) && now + cfg.period <= UInt64Max
      modifies this`timers, msgQueue
      ensures isTask == (old(timers[i]).value == cfg.value)
      ensures isTask ==>
        timers == RemoveAt(old(timers), i) + [TaskTimer(cfg, now)] && msgQueue.items == old(msgQueue.items)
      ensures !isTask ==>
        timers == RemoveAt(old(timers), i) && msgQueue.items == old(msgQueue.items) + [TimeoutMessage(old(timers[i]))]
    {
      var t := timers[i];
      if t.value == cfg.value {
        isTask := true;
        timers := RemoveAt(timers, i) + [TaskTimer(cfg, now)];
      } else {
        isTask := false;
        msgQueue.items := msgQueue.items + [TimeoutMessage(t)];
        timers := RemoveAt(timers, i);
      }
    }
  }

  /** One loop iteration keeps `DrainSplit`. */
  lemma DrainSplitStep(start: seq<Timer>, cur: seq<Timer>, popped: seq<Timer>, fired: bool,
                       tick: nat, cfg: TaskTimerConfig)
    requires DrainSplit(start, cur, popped, fired, tick, cfg)
    requires cur[MinIndex(cur)].timeout <= tick
    ensures var i := MinIndex(cur);
      && |Expired(RemoveAt(cur, i), tick)| < |Expired(cur, tick)|
      && |Expired(RemoveAt(cur, i) + [TaskTimer(cfg, tick)], tick)| < |Expired(cur, tick)|
      && (cur[i].value == cfg.value ==>
            DrainSplit(start, RemoveAt(cur, i) + [TaskTimer(cfg, tick)], popped, true, tick, cfg))
      && (cur[i].value != cfg.value ==>
            DrainSplit(start, RemoveAt(cur, i), popped + [cur[i]], fired, tick, cfg))
  {
    var i := MinIndex(cur);
    DrainUnfold(cur, tick, cfg);
    if cur[i].value != cfg.value {
      var r := Drain(RemoveAt(cur, i), tick, cfg);
      assert popped + ([cur[i]] + r.reported) == (popped + [cur[i]]) + r.reported;
    }
  }

  /** What the heap keeps throughout a tick. */
  predicate HeapValid(ts: seq<Timer>, tick: nat, cfg: TaskTimerConfig)
  {
    DrainOk(ts, tick, cfg) && Sentinel() in ts && AllWellFormed(ts)
  }

  /** The drain of `start` is the timers `popped` so far, then the drain of
      the current heap `cur`. */
  predicate DrainSplit(start: seq<Timer>, cur: seq<Timer>, popped: seq<Timer>, fired: bool,
                       tick: nat, cfg: TaskTimerConfig)
  {
    && DrainOk(start, tick, cfg) && DrainOk(cur, tick, cfg)
    && Drain(start, tick, cfg).timers == Drain(cur, tick, cfg).timers
    && Drain(start, tick, cfg).reported == popped + Drain(cur, tick, cfg).reported
    && Drain(start, tick, cfg).fired == (fired || Drain(cur, tick, cfg).fired)
  }

  lemma StepKeepsHeapValid(ts: seq<Timer>, i: nat, tick: nat, cfg: TaskTimerConfig)
    requires i < |ts| && ts[i].timeout <= tick < UInt64Max
    requires AllWellFormed(ts) && Sentinel() in ts
    requires ConfigOk(cfg) && tick + cfg.period <= UInt64Max
    ensures AllWellFormed(RemoveAt(ts, i)) && Sentinel() in RemoveAt(ts, i)
    ensures AllWellFormed(RemoveAt(ts, i) + [TaskTimer(cfg, tick)])
    ensures Sentinel() in RemoveAt(ts, i) + [TaskTimer(cfg, tick)]
  {
    RemoveAtKeeps(ts, i, Sentinel());
    RemoveAtSubset(ts, i);
  }

  /** The drain stops when the top timer lies in the future. */
  lemma DrainDone(ts: seq<Timer>, tick: nat, cfg: TaskTimerConfig)
    requires DrainOk(ts, tick, cfg) && ts[MinIndex(ts)].timeout > tick
    ensures Drain(ts, tick, cfg) == DrainResult(ts, [], false)
  {
  }

  /** One iteration of the drain loop, as `Drain` defines it. */
  lemma DrainUnfold(ts: seq<Timer>, tick: nat, cfg: TaskTimerConfig)
    requires DrainOk(ts, tick, cfg) && ts[MinIndex(ts)].timeout <= tick
    ensures var i := MinIndex(ts);
      && DrainOk(RemoveAt(ts, i), tick, cfg)
      && |Expired(RemoveAt(ts, i), tick)| < |Expired(ts, tick)|
      && DrainOk(RemoveAt(ts, i) + [TaskTimer(cfg, tick)], tick, cfg)
      && |Expired(RemoveAt(ts, i) + [TaskTimer(cfg, tick)], tick)| < |Expired(ts, tick)|
      && (ts[i].value == cfg.value ==>
            var r := Drain(RemoveAt(ts, i) + [TaskTimer(cfg, tick)], tick, cfg);
            Drain(ts, tick, cfg) == DrainResult(r.timers, r.reported, true))
      && (ts[i].value != cfg.value ==>
            var r := Drain(RemoveAt(ts, i), tick, cfg);
            Drain(ts, tick, cfg) == DrainResult(r.timers, [ts[i]] + r.reported, r.fired))
  {
    DrainStep(ts, tick, cfg, MinIndex(ts));
  }

  lemma MessagesOfAppend(ts: seq<Timer>, t: Timer)
    ensures MessagesOf(ts + [t]) == MessagesOf(ts) + [TimeoutMessage(t)]
  {
  }

  lemma SentinelKeepsDrainDefined(ts: seq<Timer>, tick: nat, cfg: TaskTimerConfig)
    requires Sentinel() in ts && tick < UInt64Max
    ensures |Expired(ts, tick)| < |ts|
  {
    var k :| 0 <= k < |ts| && ts[k] == Sentinel();
    PendingWitness(ts, tick, k);
  }
}
