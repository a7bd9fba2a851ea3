/** los_task.c and los_hw.c as they run: control blocks, lists and the wheel changed
    in place.  Every method is shown to perform the corresponding step of module
    `Kernel`, so all that module's results hold of it. */
module TaskManager {
  import opened Tasks
  import opened Kernel
  import W = TaskWheel

  class Manager {
    const tcb: array<Tcb>
    const lists: array<seq<nat>>
    const link: array<int>
    const wheel: W.Wheel
    const idle: nat
    const swtmr: nat
    var run: nat
    var lock: nat

    /** The kernel state this object represents. */
    ghost function Abs(): State
      reads this, tcb, lists, link, wheel
    {
      State(tcb[..], lists[..], link[..], wheel.ticks, run, lock, idle, swtmr)
    }

    /** The parts fit together; holds also in the middle of an operation. */
    ghost predicate Repr()
      reads this, tcb, lists, link, wheel, wheel.bucket, wheel.word
    {
      && wheel.Valid()
      && Abs().Shape()
      && wheel.word.Length == tcb.Length
      && lists != wheel.bucket
      && link as object != wheel.word as object
    }

    ghost predicate Valid()
      reads this, tcb, lists, link, wheel, wheel.bucket, wheel.word
    {
      Repr() && Inv(Abs())
    }

    /** osTaskInit and the creation of the idle task. */
    constructor (tasks: nat, waitLists: nat, swtmr: nat)
      requires 0 < tasks
      ensures Valid() && Abs() == Initial(tasks, waitLists, swtmr)
      ensures fresh(tcb) && fresh(lists) && fresh(link) && fresh(wheel) && fresh(wheel.bucket) && fresh(wheel.word)
    {
      tcb := new Tcb[tasks](t requires 0 <= t => InitialTcb(t));
      lists := new seq<nat>[FIRST_WAIT + waitLists](l requires 0 <= l => InitialList(l, tasks));
      link := new int[tasks](t => if t == 0 then PRIORITIES - 1 else FREE);
      wheel := new W.Wheel(tasks);
      idle, run, lock := 0, 0, 0;
      this.swtmr := swtmr;
      new;
      InitialOk(tasks, waitLists, swtmr);
      assert Abs() == Initial(tasks, waitLists, swtmr);
    }

    // ------------------------------------------------------------ building blocks

    method ListDelete(t: nat)
      requires Repr() && t < tcb.Length && 0 <= link[t] < lists.Length
      modifies lists, link
      ensures Repr() && Abs() == Unlink(old(Abs()), t)
    {
      lists[link[t]] := Without(lists[link[t]], t);
      link[t] := UNLINKED;
    }

    method ListTailInsert(l: nat, t: nat)
      requires Repr() && t < tcb.Length && l < lists.Length
      modifies lists, link
      ensures Repr() && Abs() == Append(old(Abs()), l, t)
    {
      lists[l] := lists[l] + [t];
      link[t] := l;
    }

    method ListAdd(l: nat, t: nat)
      requires Repr() && t < tcb.Length && l < lists.Length
      modifies lists, link
      ensures Repr() && Abs() == Prepend(old(Abs()), l, t)
    {
      lists[l] := [t] + lists[l];
      link[t] := l;
    }

    method SetStatus(t: nat, st: Status)
      requires Repr() && t < tcb.Length
      modifies tcb
      ensures Repr() && Abs() == old(Abs()).With(t, st)
    {
      tcb[t] := tcb[t].(st := st);
    }

    /** osPriqueueTop: the scan over the priorities, best first. */
    method PriqueueTop() returns (top: nat)
      requires Repr() && SomeReady(Abs())
      ensures top == TopFrom(lists[..], 0)
    {
      var p := 0;
      while lists[p] == []
        invariant p < PRIORITIES
        invariant exists q | p <= q < PRIORITIES :: lists[..][q] != []
        invariant TopFrom(lists[..], p) == TopFrom(lists[..], 0)
        decreases PRIORITIES - p
      {
        p := p + 1;
      }
      top := lists[p][0];
    }

    /** LOS_Schedule. */
    method LosSchedule()
      requires Repr() && InvBeforeSchedule(Abs())
      modifies this, tcb
      ensures Valid() && Abs() == Reschedule(old(Abs()))
    {
      ScheduleOk(Abs());
      var top := PriqueueTop();
      if run != top && lock == 0 {
        TopIsReady(Abs());
        SetStatus(run, tcb[run].st.(running := false));
        SetStatus(top, tcb[top].st.(running := true));
        run := top;
      }
    }

    // ------------------------------------------------------------ waiting

    /** osTaskWait. */
    method TaskWait(l: nat, queue: bool, timeout: nat)
      requires Valid() && Enabled(Abs(), OpBlock(l, queue, timeout)) && timeout <= WAIT_FOREVER
      modifies this, tcb, lists, link, wheel, wheel.bucket, wheel.word
      ensures Repr() && old(Abs().Shape()) && old(0 <= link[run] < lists.Length)
      ensures Abs() == Wait(old(Abs()), l, queue, timeout)
    {
      hide Inv, Without, W.WheelOk;
      ReadyIsLinked(Abs());
      var st := tcb[run].st.(ready := false, pend := tcb[run].st.pend || !queue, pendQueue := tcb[run].st.pendQueue || queue);
      ListDelete(run);
      SetStatus(run, st);
      ListTailInsert(l, run);
      if timeout != WAIT_FOREVER {
        SetStatus(run, st.(timeout := true));
        wheel.Add(run, timeout);
      }
    }

    /** A blocking call: osTaskWait, then LOS_Schedule. */
    method BlockOn(l: nat, queue: bool, timeout: nat)
      requires Valid() && Enabled(Abs(), OpBlock(l, queue, timeout)) && timeout <= WAIT_FOREVER
      modifies this, tcb, lists, link, wheel, wheel.bucket, wheel.word
      ensures Valid() && Abs() == Block(old(Abs()), l, queue, timeout)
    {
      WaitOk(Abs(), l, queue, timeout);
      TaskWait(l, queue, timeout);
      LosSchedule();
    }

    /** Setting READY and osPriqueueEnqueue. */
    method Enqueue(t: nat)
      requires Repr() && t < tcb.Length && tcb[t].prio < lists.Length
      modifies tcb, lists, link
      ensures Repr() && Abs() == MakeReady(old(Abs()), t)
    {
      SetStatus(t, tcb[t].st.(ready := true));
      ListTailInsert(tcb[t].prio, t);
    }

    /** The first half of osTaskWake. */
    method LeaveWaitList(t: nat, queue: bool)
      requires Repr() && t < tcb.Length && 0 <= link[t] < lists.Length
      requires tcb[t].st.timeout ==> t in wheel.ticks
      modifies tcb, lists, link, wheel, wheel.bucket, wheel.word
      ensures Repr() && Abs() == StopWaiting(old(Abs()), t, queue)
    {
      hide W.WheelOk;
      var st := if queue then tcb[t].st.(pendQueue := false) else tcb[t].st.(pend := false);
      ListDelete(t);
      if st.timeout {
        wheel.Delete(t);
        st := st.(timeout := false);
      }
      SetStatus(t, st);
    }

    /** osTaskWake. */
    method TaskWake(t: nat, queue: bool)
      requires Valid() && Enabled(Abs(), OpGrant(t, queue))
      modifies this, tcb, lists, link, wheel, wheel.bucket, wheel.word
      ensures Valid() && Abs() == Grant(old(Abs()), t, queue)
    {
      ghost var s := Abs();
      WakeOk(s, t, queue);
      WaiterIsLinked(s, t);
      assert Inv(Grant(s, t, queue));
      LeaveWaitList(t, queue);
      if !tcb[t].st.suspend {
        Enqueue(t);
      }
    }

    // ------------------------------------------------------------ the tick

    /** What osTaskScan does to one task it has taken off the wheel. */
    method ExpireTask(t: nat)
      requires Repr() && t < tcb.Length && tcb[t].prio < PRIORITIES
      requires tcb[t].st.pend || tcb[t].st.pendQueue ==> 0 <= link[t] < lists.Length
      modifies tcb, lists, link
      ensures Repr() && Abs() == ExpireOffWheel(old(Abs()), t)
    {
      hide W.WheelOk;
      var st := tcb[t].st;
      if st.pend {
        SetStatus(t, st.(pend := false));
        ListDelete(t);
      } else if st.pendQueue {
        ListDelete(t);
        SetStatus(t, st.(pendQueue := false));
      } else {
        SetStatus(t, st.(delay := false));
      }
      if !st.suspend {
        Enqueue(t);
      }
    }

    /** The loop of osTaskScan; `cur` is the state before it, seen with the released
        tasks still on the wheel. */
    method ExpireEach(released: seq<nat>, ghost s: State, ghost cur: State) returns (needSchedule: bool)
      requires Repr() && Abs() == cur.(wheel := W.TickDown(s.wheel)) && Pending(s, cur, released, 0)
      modifies tcb, lists, link
      ensures Repr() && Pending(s, cur, released, 0) && Abs() == ExpireAll(cur, released).(wheel := W.TickDown(s.wheel))
      ensures needSchedule == NeedSchedule(s, released)
    {
      hide W.WheelOk, ExpireOffWheel, ExpireAll, Pending, NeedSchedule, Stage;
      StageStart(s, cur, released);
      ghost var c := cur;
      needSchedule := false;
      var i := 0;
      while i < |released|
        invariant i <= |released| && Repr() && Stage(s, cur, released, i, c, Abs(), needSchedule)
      {
        c := StageNext(s, cur, released, i, c, Abs(), needSchedule);
        var t := released[i];
        if !tcb[t].st.suspend {
          needSchedule := true;
        }
        ExpireTask(t);
        i := i + 1;
      }
      StageEnd(s, cur, released, c, Abs(), needSchedule);
    }

    /** osTaskScan. */
    method TaskScan() returns (released: seq<nat>)
      requires Valid()
      modifies this, tcb, lists, link, wheel, wheel.bucket, wheel.word
      ensures Valid() && W.Expiring(old(wheel.ticks), released)
      ensures Abs() == Scan(old(Abs()), released)
    {
      ghost var s := Abs();
      released := wheel.Scan();
      ScanPending(s, released);
      ghost var s' := Scan(s, released);
      var needSchedule := ExpireEach(released, s, s.(wheel := Decrement(s.wheel)));
      if needSchedule {
        LosSchedule();
      }
    }

    // ------------------------------------------------------------ task calls

    /** osTaskPriModify. */
    method PriModify(t: nat, prio: nat)
      requires Valid() && Enabled(Abs(), OpSetPrio(t, prio))
      modifies this, tcb, lists, link
      ensures Valid() && Abs() == SetPrio(old(Abs()), t, prio)
    {
      hide W.WheelOk;
      ghost var s' := SetPrio(Abs(), t, prio);
      PriModifyOk(Abs(), t, prio);
      if tcb[t].st.ready {
        ListDelete(t);
        tcb[t] := tcb[t].(prio := prio);
        ListTailInsert(prio, t);
      } else {
        tcb[t] := tcb[t].(prio := prio);
      }
      assert Abs() == s';
    }

    /** LOS_TaskPriSet. */
    method TaskPriSet(t: nat, prio: nat) returns (r: Ret)
      requires Valid()
      modifies this, tcb, lists, link
      ensures Valid() && Abs() == PriSet(old(Abs()), t, prio)
      ensures old(Abs().Shape()) && r == PriSetRet(old(Abs()), t, prio)
    {
      hide W.WheelOk;
      ghost var s' := PriSet(Abs(), t, prio);
      if prio >= PRIORITIES { return PriorError; }
      if t == idle { return OperateIdle; }
      if t == swtmr { return OperateSwtmr; }
      if t >= tcb.Length { return IdInvalid; }
      if tcb[t].st.unused { return NotCreated; }
      var ready := tcb[t].st.ready;
      PriModify(t, prio);
      if ready {
        LosSchedule();
      }
      r := Ok;
    }

    /** LOS_TaskSuspend. */
    method TaskSuspend(t: nat) returns (r: Ret)
      requires Valid()
      modifies this, tcb, lists, link
      ensures Valid() && Abs() == Suspend(old(Abs()), t)
      ensures old(Abs().Shape()) && r == SuspendRet(old(Abs()), t)
    {
      hide W.WheelOk, Without;
      ghost var s, s' := Abs(), Suspend(Abs(), t);
      if t == idle { return OperateIdle; }
      if t == swtmr { return OperateSwtmr; }
      if t >= tcb.Length { return IdInvalid; }
      var st := tcb[t].st;
      if st.unused { return NotCreated; }
      if st.suspend { return AlreadySuspended; }
      if st.running && lock != 0 { return SuspendLocked; }
      MarkSuspendedOk(s, t);
      SuspendSteps(s, t);
      if st.ready {
        ListDelete(t);
      }
      SetStatus(t, st.(ready := false, suspend := true));
      if t == run {
        LosSchedule();
      }
      r := Ok;
    }

    /** LOS_TaskResume. */
    method TaskResume(t: nat) returns (r: Ret)
      requires Valid()
      modifies this, tcb, lists, link
      ensures Valid() && Abs() == Resume(old(Abs()), t)
      ensures old(Abs().Shape()) && r == ResumeRet(old(Abs()), t)
    {
      hide W.WheelOk;
      ghost var s, s' := Abs(), Resume(Abs(), t);
      if t >= tcb.Length { return IdInvalid; }
      if tcb[t].st.unused { return NotCreated; }
      if !tcb[t].st.suspend { return NotSuspended; }
      UnsuspendOk(s, t);
      ResumeSteps(s, t);
      SetStatus(t, tcb[t].st.(suspend := false));
      if !Blocked(tcb[t].st) {
        Enqueue(t);
        LosSchedule();
      }
      r := Ok;
    }

    /** LOS_TaskYield; osPriqueueSize counts the ready tasks of the priority. */
    method TaskYield() returns (r: Ret)
      requires Valid()
      modifies this, tcb, lists, link
      ensures Valid() && Abs() == Yield(old(Abs()))
      ensures old(Abs().Shape() && tcb[run].prio < lists.Length) && r == YieldRet(old(Abs()))
    {
      hide W.WheelOk;
      RotateOk(Abs());
      if !tcb[run].st.ready { return Ok; }
      if |lists[tcb[run].prio]| <= 1 { return YieldNotEnoughTask; }
      ListDelete(run);
      ListTailInsert(tcb[run].prio, run);
      LosSchedule();
      r := Ok;
    }

    /** LOS_TaskDelay. */
    method TaskDelay(ticks: nat) returns (r: Ret)
      requires Valid() && Enabled(Abs(), OpDelay(ticks)) && ticks <= WAIT_FOREVER
      modifies this, tcb, lists, link, wheel, wheel.bucket, wheel.word
      ensures Valid() && Abs() == Delay(old(Abs()), ticks)
      ensures old(Abs().Shape() && tcb[run].prio < lists.Length) && r == DelayRet(old(Abs()), ticks)
    {
      ghost var s := Abs();
      ReadyIsLinked(s);
      if lock != 0 { return DelayInLock; }
      if ticks == 0 {
        r := TaskYield();
        return;
      }
      SleepOk(s, ticks);
      StartDelay(ticks);
      LosSchedule();
      r := Ok;
    }

    method StartDelay(ticks: nat)
      requires Repr() && 0 <= link[run] < lists.Length && run !in wheel.ticks && 0 < ticks <= WAIT_FOREVER
      modifies tcb, lists, link, wheel, wheel.bucket, wheel.word
      ensures Repr() && Abs() == Sleep(old(Abs()), ticks)
    {
      hide W.WheelOk;
      ListDelete(run);
      SetStatus(run, tcb[run].st.(ready := false, delay := true));
      wheel.Add(run, ticks);
    }

    /** LOS_TaskLock. */
    method TaskLock()
      requires Valid()
      modifies this
      ensures Valid() && Abs() == Apply(old(Abs()), OpLock)
    {
      LockFrame(Abs(), LockStep(Abs()).lock);
      lock := (lock + 1) % 0x1_0000;
    }

    /** LOS_TaskUnlock. */
    method TaskUnlock()
      requires Valid()
      modifies this, tcb
      ensures Valid() && Abs() == Unlock(old(Abs()))
    {
      LockFrame(Abs(), if lock > 0 then lock - 1 else 0);
      if lock > 0 {
        lock := lock - 1;
        if lock == 0 {
          LosSchedule();
        }
      }
    }

    /** The check every blocking call makes once it runs again. */
    method AfterWait() returns (timedOut: bool)
      requires Valid()
      modifies tcb
      ensures Valid() && Abs() == ClearTimeout(old(Abs()))
      ensures timedOut == old(tcb[run].st.timeout)
    {
      ghost var s' := ClearTimeout(Abs());
      timedOut := tcb[run].st.timeout;
      SetStatus(run, tcb[run].st.(timeout := false));
    }

    /** LOS_TaskDelete. */
    method TaskDelete(t: nat) returns (r: Ret)
      requires Valid() && Enabled(Abs(), OpDelete(t))
      modifies this, tcb, lists, link, wheel, wheel.bucket, wheel.word
      ensures Valid() && Abs() == Delete(old(Abs()), t)
      ensures old(Abs().Shape()) && r == DeleteRet(old(Abs()), t)
    {
      ghost var s := Abs();
      if t == idle { return OperateIdle; }
      if t == swtmr { return OperateSwtmr; }
      if t >= tcb.Length { return IdInvalid; }
      if tcb[t].st.unused { return NotCreated; }
      DiscardOk(s, t);
      DiscardReady(s, t);
      DiscardTask(t);
      r := Ok;
    }

    method DiscardTask(t: nat)
      requires Repr() && t < tcb.Length
      requires tcb[t].st.ready || tcb[t].st.pend || tcb[t].st.pendQueue ==> 0 <= link[t] < lists.Length
      requires tcb[t].st.delay || tcb[t].st.timeout ==> t in wheel.ticks
      modifies tcb, lists, link, wheel, wheel.bucket, wheel.word
      ensures Repr() && Abs() == Discard(old(Abs()), t)
    {
      hide W.WheelOk;
      var st := tcb[t].st;
      if st.ready || st.pend || st.pendQueue {
        ListDelete(t);
      }
      if st.delay || st.timeout {
        wheel.Delete(t);
      }
      SetStatus(t, UNUSED);
      ListAdd(FREE, t);
    }

    /** LOS_TaskCreate; `memory` says whether the stack allocation succeeds. */
    method TaskCreate(prio: nat, idleEntry: bool, memory: bool) returns (r: Ret, t: nat)
      requires Valid()
      modifies this, tcb, lists, link
      ensures Valid() && Abs() == Create(old(Abs()), prio, idleEntry, memory)
      ensures old(Abs().Shape()) && r == CreateRet(old(Abs()), prio, idleEntry, memory)
      ensures r == Ok ==> old(lists[FREE] != []) && t == old(lists[FREE][0])
    {
      hide W.WheelOk, Without;
      ghost var s, s' := Abs(), Create(Abs(), prio, idleEntry, memory);
      t := 0;
      if prio >= PRIORITIES { return PriorError, t; }
      if prio == PRIORITIES - 1 && !idleEntry { return PriorError, t; }
      if lists[FREE] == [] { return TcbUnavailable, t; }
      if !memory { return NoMemory, t; }
      t := lists[FREE][0];
      CreateSteps(s, prio, idleEntry);
      ListDelete(t);
      tcb[t] := Tcb(READY, prio);
      ListTailInsert(prio, t);
      LosSchedule();
      r := Ok;
    }
  }

  lemma ScanPending(s: State, released: seq<nat>)
    requires Inv(s) && W.Expiring(s.wheel, released)
    ensures var cur := s.(wheel := Decrement(s.wheel));
      && Pending(s, cur, released, 0)
      && InvBeforeSchedule(ExpireAll(cur, released))
      && ExpireAll(cur, released).wheel == W.TickDown(s.wheel)
  {
    DecrementOk(s);
    ExpireAllWheel(s.(wheel := Decrement(s.wheel)), released);
    assert ExpireAll(s.(wheel := Decrement(s.wheel)), released).wheel == W.TickDown(s.wheel);
  }

  /** The tasks from place `i` on are still to be expired. */
  ghost predicate Pending(s: State, cur: State, released: seq<nat>, i: nat) {
    && i <= |released| && Distinct(released)
    && Base(cur) && cur.tcb[cur.run].st.ready && |cur.tcb| == |s.tcb|
    && (forall t <- released[i..] :: t in cur.wheel)
    && (forall t <- released :: t !in W.TickDown(s.wheel))
    && (forall x | 0 <= x < |s.tcb| :: cur.tcb[x].st.suspend == s.tcb[x].st.suspend)
  }

  /** Where the loop of osTaskScan stands after `i` tasks: `now` is the kernel, `c` the
      same with the remaining tasks still on the wheel. */
  ghost predicate Stage(s: State, cur: State, released: seq<nat>, i: nat, c: State, now: State, need: bool) {
    && Pending(s, cur, released, 0) && Pending(s, c, released, i)
    && now == c.(wheel := W.TickDown(s.wheel))
    && Distinct(released[i..]) && released[0..] == released
    && ExpireAll(c, released[i..]) == ExpireAll(cur, released)
    && need == NeedSchedule(s, released[..i])
  }

  lemma StageStart(s: State, cur: State, released: seq<nat>)
    requires Pending(s, cur, released, 0)
    ensures Stage(s, cur, released, 0, cur, cur.(wheel := W.TickDown(s.wheel)), false)
  {
    hide Base;
    assert released[0..] == released;
  }

  lemma StageNext(s: State, cur: State, released: seq<nat>, i: nat, c: State, now: State, need: bool) returns (next: State)
    requires Stage(s, cur, released, i, c, now, need) && i < |released|
    ensures var t := released[i];
      && now.Shape() && t < |now.tcb| && now.tcb[t].prio < PRIORITIES
      && (now.St(t).pend || now.St(t).pendQueue ==> 0 <= now.link[t] < |now.lists|)
      && Stage(s, cur, released, i + 1, next, ExpireOffWheel(now, t), need || !now.tcb[t].st.suspend)
  {
    next := ExpireNext(s, c, released, i);
    hide Base, Expire, ExpireOffWheel, ExpireAll, NeedSchedule, W.TickDown;
    assert released[i..][1..] == released[i + 1..];
    ExpireAllUnfold(c, released[i..]);
    NeedOneMore(s, released, i);
  }

  lemma StageEnd(s: State, cur: State, released: seq<nat>, c: State, now: State, need: bool)
    requires Stage(s, cur, released, |released|, c, now, need)
    ensures Pending(s, cur, released, 0) && now == ExpireAll(cur, released).(wheel := W.TickDown(s.wheel))
    ensures need == NeedSchedule(s, released)
  {
    hide Base;
    assert released[|released|..] == [] && released[..|released|] == released;
  }

  lemma ExpireNext(s: State, cur: State, released: seq<nat>, i: nat) returns (next: State)
    requires Pending(s, cur, released, i) && i < |released|
    ensures var t := released[i];
      && t < |cur.tcb| && cur.tcb[t].prio < PRIORITIES && t !in W.TickDown(s.wheel)
      && (cur.St(t).pend || cur.St(t).pendQueue ==> FIRST_WAIT <= cur.link[t] < |cur.lists|)
      && next == Expire(cur, t)
      && ExpireOffWheel(cur.(wheel := W.TickDown(s.wheel)), t) == next.(wheel := W.TickDown(s.wheel))
      && Pending(s, next, released, i + 1)
  {
    var t := released[i];
    assert t in released[i..] && t in released && released[i..][0] == t && released[i..][1..] == released[i + 1..];
    ExpireOk(cur, t);
    ExpireIgnoresWheel(cur, t, W.TickDown(s.wheel));
    ExpireFrame(cur, t);
    next := Expire(cur, t);
    hide Base, Expire, ExpireOffWheel, W.TickDown;
    forall x <- released[i + 1..] ensures x in next.wheel {
      assert x in released[i..] && x != t;
    }
  }

  lemma ExpireFrame(s: State, t: nat)
    requires s.Shape() && t < |s.tcb| && s.tcb[t].prio < PRIORITIES
    requires s.St(t).pend || s.St(t).pendQueue ==> 0 <= s.link[t] < |s.lists|
    ensures Expire(s, t).wheel == s.wheel - {t} && |Expire(s, t).tcb| == |s.tcb| && Expire(s, t).run == s.run
  {
  }

  lemma ExpireAllUnfold(s: State, released: seq<nat>)
    requires Base(s) && s.tcb[s.run].st.ready && Distinct(released) && released != [] && forall t <- released :: t in s.wheel
    requires released[0] < |s.tcb| && s.tcb[released[0]].prio < PRIORITIES
    requires var t := released[0]; s.St(t).pend || s.St(t).pendQueue ==> 0 <= s.link[t] < |s.lists|
    ensures var next := Expire(s, released[0]);
      && Base(next) && next.tcb[next.run].st.ready && Distinct(released[1..]) && (forall t <- released[1..] :: t in next.wheel)
      && ExpireAll(s, released) == ExpireAll(next, released[1..])
  {
    var t := released[0];
    assert t in released;
    ExpireOk(s, t);
    ExpireFrame(s, t);
    hide Base, Expire;
    forall x <- released[1..] ensures x in Expire(s, t).wheel {
      assert x in released && x != t;
    }
  }

  lemma NeedOneMore(s: State, released: seq<nat>, i: nat)
    requires i < |released|
    ensures NeedSchedule(s, released[..i + 1])
        <==> NeedSchedule(s, released[..i]) || (released[i] < |s.tcb| && !s.tcb[released[i]].st.suspend)
  {
    assert released[..i + 1] == released[..i] + [released[i]];
    forall k | 0 <= k < i ensures released[..i][k] == released[..i + 1][k] {
    }
    assert released[..i + 1][i] == released[i];
  }

  lemma ExpireIgnoresWheel(s: State, t: nat, w: map<nat, nat>)
    requires s.Shape() && t < |s.tcb| && s.tcb[t].prio < PRIORITIES
    requires s.St(t).pend || s.St(t).pendQueue ==> 0 <= s.link[t] < |s.lists|
    ensures ExpireOffWheel(s.(wheel := w), t) == Expire(s, t).(wheel := w)
  {
  }

  lemma SuspendSteps(s: State, t: nat)
    requires Inv(s) && SuspendRet(s, t) == Ok
    ensures s.St(t).ready ==> 0 <= s.link[t] < |s.lists|
    ensures t == s.run ==> InvBeforeSchedule(MarkSuspended(s, t)) && Suspend(s, t) == Reschedule(MarkSuspended(s, t))
    ensures t != s.run ==> Suspend(s, t) == MarkSuspended(s, t)
  {
    assert TaskOk(s, t) && TaskOk(s, s.run);
    MarkSuspendedOk(s, t);
  }

  lemma ResumeSteps(s: State, t: nat)
    requires Inv(s) && ResumeRet(s, t) == Ok
    ensures s.tcb[t].prio < PRIORITIES
    ensures Blocked(s.St(t)) ==> Resume(s, t) == Unsuspend(s, t)
    ensures !Blocked(s.St(t)) ==> InvBeforeSchedule(Unsuspend(s, t)) && Resume(s, t) == Reschedule(Unsuspend(s, t))
  {
    assert TaskOk(s, t) && TaskOk(s, s.run);
    UnsuspendOk(s, t);
  }

  lemma DiscardReady(s: State, t: nat)
    requires Inv(s) && DeleteRet(s, t) == Ok && t != s.run && !TimedOut(s, t)
    ensures s.St(t).ready || s.St(t).pend || s.St(t).pendQueue ==> 0 <= s.link[t] < |s.lists|
    ensures s.St(t).delay || s.St(t).timeout ==> t in s.wheel
  {
    assert TaskOk(s, t);
  }

  lemma ReadyIsLinked(s: State)
    requires Inv(s)
    ensures s.Shape() && s.link[s.run] == s.tcb[s.run].prio < PRIORITIES && s.run !in s.wheel
  {
    assert TaskOk(s, s.run);
  }

  lemma WaiterIsLinked(s: State, t: nat)
    requires Inv(s) && t < |s.tcb| && (s.St(t).pend || s.St(t).pendQueue)
    ensures FIRST_WAIT <= s.link[t] < |s.lists| && s.tcb[t].prio < PRIORITIES
    ensures t in s.wheel <==> s.St(t).timeout
  {
    assert TaskOk(s, t);
  }
}
