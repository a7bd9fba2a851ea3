/** The tick and tickless sleep: los_tick.c, los_timeslice.c and los_tickless.c as
    they run on the task manager and the timer pool, and what a sleep may skip. */
module Clock {
  import opened Tasks
  import opened Kernel
  import opened TimeSlice
  import Manage = TaskManager
  import Wheel = TaskWheel
  import Soft = Swtmr
  import T = Timers

  datatype Machine = Machine(k: State, timers: T.Timers, slice: Slice, tick: nat)

  /** What one tick released and fired. */
  datatype Ticked = Ticked(released: seq<nat>, fired: seq<nat>)

  const NOTHING: Ticked := Ticked([], [])

  ghost predicate Sound(y: Machine) {
    Inv(y.k) && T.Ok(y.timers)
  }

  /** One tick: the slice is checked, then the tasks and the timers are scanned. */
  ghost predicate TickTo(y: Machine, y': Machine, tout: nat, e: Ticked) {
    && Sound(y) && Wheel.Expiring(y.k.wheel, e.released)
    && T.Lists(e.fired, y.timers.left, 1) && (forall s <- e.fired :: s < |y.timers.cb|)
    && y' == Machine(Scan(AfterCheck(y.k, y.slice, y.tick + 1, tout), e.released), T.Tick(y.timers, e.fired),
                     NextSlice(y.k, y.slice, y.tick + 1, tout), y.tick + 1)
  }

  ghost predicate IsTickRun(states: seq<Machine>, tout: nat, events: seq<Ticked>) {
    && |states| == |events| + 1 && Sound(states[0])
    && forall i | 0 <= i < |events| :: TickTo(states[i], states[i + 1], tout, events[i])
  }

  lemma TickToOk(y: Machine, y': Machine, tout: nat, e: Ticked)
    requires TickTo(y, y', tout, e)
    ensures Sound(y') && y'.k.wheel == Wheel.TickDown(y.k.wheel) && y'.timers.left == T.TickLeft(y.timers)
  {
    hide Inv;
    T.TickEffect(y.timers, e.fired);
  }

  // ---------------------------------------------------------------- the slices in the whole system

  function Part(y: Machine): Sys {
    Sys(y.k, y.slice, y.tick)
  }

  /** A tick counts one, and one that releases no task is, for kernel and slice, the tick
      that `TimeSlice` studies. */
  lemma TickIsQuiet(y: Machine, y': Machine, tout: nat, e: Ticked)
    requires TickTo(y, y', tout, e)
    ensures y'.tick == y.tick + 1
    ensures e.released == [] ==> QuietStep(Part(y), Part(y'), tout)
  {
    hide Inv, Scan, AfterCheck, T.Tick, T.Ok;
  }

  /** Round robin on the running clock: over any ticks that release no task, whatever
      timers fire, the ready list of the top priority turns by one exactly once per
      period. */
  lemma RoundRobin(states: seq<Machine>, tout: nat, events: seq<Ticked>, l: seq<nat>, p: nat, j: nat, r: nat)
    requires IsTickRun(states, tout, events) && forall i | 0 <= i < |events| :: events[i].released == []
    requires 2 <= |l| && r < Period(tout) && j * Period(tout) + r <= |events|
    requires Front(states[0].k, l, p) && NotOf(states[0].slice, l[0])
    ensures Front(states[j * Period(tout) + r].k, Turn(l, j), p)
  {
    hide TickTo, QuietStep, Front, Period, Turn, Sound;
    var parts := seq(|states|, i requires 0 <= i < |states| => Part(states[i]));
    forall i | 0 <= i < |parts| - 1 ensures QuietStep(parts[i], parts[i + 1], tout) {
      assert TickTo(states[i], states[i + 1], tout, events[i]);
      TickIsQuiet(states[i], states[i + 1], tout, events[i]);
    }
    RotatesEveryPeriod(parts, l, p, tout, j, r);
  }

  // ---------------------------------------------------------------- what a sleep may skip

  /** All countdowns are longer than `n` ticks. */
  ghost predicate QuietFor(wheel: map<nat, nat>, left: map<nat, nat>, n: nat) {
    && (forall t <- wheel :: n < wheel[t])
    && (forall s <- left :: n < left[s])
  }

  function LessBy(m: map<nat, nat>, n: nat): map<nat, nat> {
    map t | t in m :: if m[t] > n then m[t] - n else 0
  }

  lemma SomeMember(l: seq<nat>)
    ensures l == [] || exists x :: x in l
  {
    if l != [] {
      assert l[0] in l;
    }
  }

  /** A tick on which every countdown is longer than 1 releases and fires nothing. */
  lemma QuietTickEffect(y: Machine, y': Machine, tout: nat, e: Ticked)
    requires TickTo(y, y', tout, e) && QuietFor(y.k.wheel, y.timers.left, 1)
    ensures e == NOTHING
    ensures y'.k.wheel == LessBy(y.k.wheel, 1) && y'.timers.left == LessBy(y.timers.left, 1)
  {
    TickToOk(y, y', tout, e);
    hide Inv, Scan;
    SomeMember(e.released);
    SomeMember(e.fired);
    assert forall s <- y.timers.left :: s < |y.timers.cb|;
  }

  lemma LessByMore(m: map<nat, nat>, n: nat)
    ensures LessBy(m, 0) == m && LessBy(LessBy(m, n), 1) == LessBy(m, n + 1)
  {
  }

  /** Ticks that all countdowns outlast release no task and fire no timer; they only
      bring every expiry nearer. */
  lemma {:induction false} NothingExpires(states: seq<Machine>, tout: nat, events: seq<Ticked>, n: nat)
    requires IsTickRun(states, tout, events) && n <= |events|
    requires QuietFor(states[0].k.wheel, states[0].timers.left, n)
    ensures Sound(states[n])
    ensures states[n].k.wheel == LessBy(states[0].k.wheel, n) && states[n].timers.left == LessBy(states[0].timers.left, n)
    ensures forall i | 0 <= i < n :: events[i] == NOTHING
  {
    hide TickTo, Sound;
    LessByMore(states[0].k.wheel, if n == 0 then 0 else n - 1);
    LessByMore(states[0].timers.left, if n == 0 then 0 else n - 1);
    if n > 0 {
      NothingExpires(states, tout, events, n - 1);
      assert TickTo(states[n - 1], states[n - 1 + 1], tout, events[n - 1]);
      TickToOk(states[n - 1], states[n], tout, events[n - 1]);
      QuietTickEffect(states[n - 1], states[n], tout, events[n - 1]);
    }
  }

  /** `n` is what osSleepTicksGet computes: 0 when no task is on the wheel, otherwise
      the least countdown of all tasks and timers. */
  ghost predicate IsSleep(wheel: map<nat, nat>, left: map<nat, nat>, n: nat) {
    && (n == 0 <==> wheel == map[])
    && (n > 0 ==> (exists t <- wheel :: wheel[t] == n) || (exists s <- left :: left[s] == n))
    && (forall t <- wheel :: n <= wheel[t])
    && (forall s <- left :: n <= left[s])
  }

  /** The least countdown is unique. */
  lemma SleepUnique(wheel: map<nat, nat>, left: map<nat, nat>, n: nat)
    requires IsSleep(wheel, left, n)
    ensures forall n': nat | IsSleep(wheel, left, n') :: n' == n
  {
  }

  /** A sleep of `n > 1` ticks, `n` at most what osSleepTicksGet computes, replays
      `n - 1` ticks before the interrupt that ends it.  They release and fire nothing,
      so nothing expires later than it would have without the sleep.  If `n` was not
      cut short, something expires on the very tick that ends the sleep. */
  lemma SleepIsExact(states: seq<Machine>, tout: nat, events: seq<Ticked>, full: nat, n: nat)
    requires IsTickRun(states, tout, events) && |events| == n && 1 < n <= full
    requires IsSleep(states[0].k.wheel, states[0].timers.left, full)
    ensures forall i | 0 <= i < n - 1 :: events[i] == NOTHING
    ensures n < full ==> events[n - 1] == NOTHING
    ensures n == full ==> events[n - 1] != NOTHING
  {
    hide TickTo, Sound;
    NothingExpires(states, tout, events, n - 1);
    assert TickTo(states[n - 1], states[n - 1 + 1], tout, events[n - 1]);
    if n < full {
      QuietTickEffect(states[n - 1], states[n], tout, events[n - 1]);
    } else {
      SomethingExpires(states[n - 1], states[n], tout, events[n - 1], states[0].k.wheel, states[0].timers.left, n - 1);
    }
  }

  lemma SomethingExpires(y: Machine, y': Machine, tout: nat, e: Ticked, wheel: map<nat, nat>, left: map<nat, nat>, n: nat)
    requires TickTo(y, y', tout, e) && y.k.wheel == LessBy(wheel, n) && y.timers.left == LessBy(left, n)
    requires (exists t <- wheel :: wheel[t] == n + 1) || (exists s <- left :: left[s] == n + 1)
    ensures e != NOTHING
  {
    hide Inv, Scan;
    if t :| t in wheel && wheel[t] == n + 1 {
      assert t in y.k.wheel && y.k.wheel[t] == 1;
      assert t in e.released;
    } else {
      var s :| s in left && left[s] == n + 1;
      assert s in y.timers.left && y.timers.left[s] == 1;
      assert s in e.fired;
    }
  }

  // ---------------------------------------------------------------- as it runs

  class Ticker {
    const m: Manage.Manager
    const pool: Soft.Pool
    const tout: nat       // usTout
    var slice: Slice      // g_stTaskTimeSlice
    var tick: nat         // g_ullTickCount
    var sleepTicks: nat   // g_uwSleepTicks

    ghost function Abs(): Machine
      reads this, m, m.tcb, m.lists, m.link, m.wheel, pool, pool.cb
    {
      Machine(m.Abs(), pool.Abs(), slice, tick)
    }

    ghost predicate Valid()
      reads this, m, m.tcb, m.lists, m.link, m.wheel, m.wheel.bucket, m.wheel.word, pool, pool.cb
    {
      m.Valid() && pool.Valid()
    }

    constructor (m: Manage.Manager, pool: Soft.Pool, tout: nat)
      requires m.Valid() && pool.Valid() && tout < UINT16_RANGE
      ensures Valid() && this.m == m && this.pool == pool && this.tout == tout
      ensures Abs() == Machine(m.Abs(), pool.Abs(), NoTask, 0) && sleepTicks == 0
    {
      this.m, this.pool, this.tout := m, pool, tout;
      slice, tick, sleepTicks := NoTask, 0, 0;
    }

    /** osTimesliceCheck. */
    method TimesliceCheck()
      requires m.Valid()
      modifies this`slice, m, m.tcb, m.lists, m.link
      ensures m.Valid() && m.Abs() == AfterCheck(old(m.Abs()), old(slice), tick, tout)
      ensures old(m.Abs().Shape()) && slice == NextSlice(old(m.Abs()), old(slice), tick, tout)
    {
      hide Inv, Yield, Wheel.WheelOk;
      if !(slice.Slice? && slice.task == m.run) {
        slice := Slice(m.run, (tick % UINT16_RANGE + tout + UINT16_RANGE - 1) % UINT16_RANGE);
      }
      if slice.end == tick % UINT16_RANGE {
        slice := NoTask;
        var _ := m.TaskYield();
      }
    }

    /** The body that osTickHandler and osTickHandlerLoop share. */
    method TickHandler() returns (e: Ticked)
      requires Valid()
      modifies this, m, m.tcb, m.lists, m.link, m.wheel, m.wheel.bucket, m.wheel.word, pool, pool.cb
      ensures Valid() && sleepTicks == old(sleepTicks)
      ensures TickTo(old(Abs()), Abs(), tout, e)
    {
      hide Inv, AfterCheck, NextSlice, Scan, T.Tick, T.Base, T.Lists, Wheel.WheelOk, Wheel.Expiring, Soft.Represents;
      tick := tick + 1;
      TimesliceCheck();
      var released := m.TaskScan();
      var fired := pool.SwtmrScan();
      e := Ticked(released, fired);
    }

    /** osTickHandlerLoop. */
    method TickHandlerLoop(n: nat) returns (events: seq<Ticked>, ghost states: seq<Machine>)
      requires Valid()
      modifies this, m, m.tcb, m.lists, m.link, m.wheel, m.wheel.bucket, m.wheel.word, pool, pool.cb
      ensures Valid() && sleepTicks == old(sleepTicks) && |events| == n
      ensures IsTickRun(states, tout, events) && states[0] == old(Abs()) && states[n] == Abs()
    {
      hide TickTo;
      events, states := [], [Abs()];
      var i := 0;
      while i < n
        invariant i <= n && Valid() && sleepTicks == old(sleepTicks) && |events| == i
        invariant IsTickRun(states, tout, events) && states[0] == old(Abs()) && states[i] == Abs()
      {
        var e := TickHandler();
        events, states := events + [e], states + [Abs()];
        i := i + 1;
      }
    }

    /** osSleepTicksGet, without timer alignment. */
    method SleepTicksGet() returns (n: nat)
      requires Valid() && !pool.align
      ensures IsSleep(m.wheel.ticks, pool.left, n)
    {
      var taskTicks := m.wheel.NextSwitchTime();
      var timerTicks := pool.NextTimeout();
      n := if taskTicks < timerTicks then taskTicks else timerTicks;
    }

    /** osTicklessStart; `maxTicks` is the longest sleep the counter can time. */
    method TicklessStart(maxTicks: nat)
      requires Valid() && !pool.align
      modifies this`sleepTicks
      ensures exists full: nat :: IsSleep(m.wheel.ticks, pool.left, full)
      ensures forall full: nat | IsSleep(m.wheel.ticks, pool.left, full) ::
                sleepTicks == if full <= 1 then old(sleepTicks) else if full < maxTicks then full else maxTicks
    {
      hide Inv, T.Base, IsSleep, Wheel.WheelOk, Soft.Represents;
      var n := SleepTicksGet();
      ghost var full := n;
      if n > 1 {
        if n >= maxTicks {
          n := maxTicks;
        }
        sleepTicks := n;
      }
      assert IsSleep(m.wheel.ticks, pool.left, full);
      SleepUnique(m.wheel.ticks, pool.left, full);
    }

    /** osUpdateKernelTickCount in the SysTick interrupt that ends a sleep, followed by
        that interrupt's own tick. */
    method EndSleep() returns (events: seq<Ticked>, ghost states: seq<Machine>)
      requires Valid() && 1 < sleepTicks
      modifies this, m, m.tcb, m.lists, m.link, m.wheel, m.wheel.bucket, m.wheel.word, pool, pool.cb
      ensures Valid() && sleepTicks == 0 && |events| == old(sleepTicks)
      ensures IsTickRun(states, tout, events) && states[0] == old(Abs()) && states[|events|] == Abs()
    {
      hide TickTo;
      events, states := TickHandlerLoop(sleepTicks - 1);
      sleepTicks := 0;
      var e := TickHandler();
      events, states := events + [e], states + [Abs()];
    }

    /** A whole tickless sleep: it lasts for the least countdown, cut to what the counter
        can time, and there is none for a single tick. */
    method Sleep(maxTicks: nat) returns (events: seq<Ticked>)
      requires Valid() && !pool.align && sleepTicks == 0
      modifies this, m, m.tcb, m.lists, m.link, m.wheel, m.wheel.bucket, m.wheel.word, pool, pool.cb
      ensures Valid() && sleepTicks <= 1
      ensures forall full: nat | IsSleep(old(m.wheel.ticks), old(pool.left), full) ::
                |events| == if full <= 1 || maxTicks <= 1 then 0 else if full < maxTicks then full else maxTicks
      ensures forall i | 0 <= i < |events| - 1 :: events[i] == NOTHING
      ensures |events| < maxTicks && events != [] ==> events[|events| - 1] != NOTHING
    {
      hide TickTo, Inv, IsSleep;
      TicklessStart(maxTicks);
      events := [];
      if 1 < sleepTicks {
        ghost var n := sleepTicks;
        ghost var full: nat :| IsSleep(m.wheel.ticks, pool.left, full);
        ghost var states;
        events, states := EndSleep();
        SleepIsExact(states, tout, events, full, n);
      }
    }
  }
}
