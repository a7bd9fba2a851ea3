/** The task calls of los_task.c as their callers see them: which code each returns, and
    what it has done to the task it names, the lists, the wheel and the processor.
    The tables are written in terms of the state before and after alone. */
module TaskAnswers {
  import opened Tasks
  import opened Kernel
  import opened TaskCalls
  import Wheel = TaskWheel

  /** Who runs afterwards: where the scheduler is called and not locked, the head of the
      best ready list; elsewhere whoever ran. */
  ghost predicate Runner(s: State, s': State, scheduled: bool) {
    if scheduled && s.lock == 0 then HeadsBest(s', s'.run) else s'.run == s.run
  }

  /** Scheduling under the lock changes nothing. */
  lemma LockedSchedule(s: State)
    requires InvBeforeSchedule(s) && s.lock != 0
    ensures Reschedule(s) == s
  {
    hide LinksOk, TaskOk, HeadsBest;
  }

  /** At the start the idle task runs at the lowest priority, every other control block is
      free, in order, and nobody waits. */
  lemma InitialAnswers(tasks: nat, waitLists: nat, swtmr: nat)
    requires 0 < tasks
    ensures var s := Initial(tasks, waitLists, swtmr);
      && |s.tcb| == tasks && |s.lists| == 33 + waitLists && s.run == s.idle == 0 && s.lock == 0 && s.wheel == map[]
      && s.tcb[0] == Tcb(READY.(running := true), 31) && s.lists[31] == [0]
      && |s.lists[32]| == tasks - 1 && (forall i | 0 <= i < tasks - 1 :: s.lists[32][i] == i + 1)
      && (forall t | 0 < t < tasks :: s.tcb[t].st == UNUSED)
      && forall l | 0 <= l < |s.lists| && l != 31 && l != 32 :: s.lists[l] == []
  {
  }

  // ---------------------------------------------------------------- LOS_TaskPriSet

  /** Every created task but the idle and the timer task gets the priority, ready or not.
      A ready task goes to the end of the list of its new priority; a task that waits,
      is delayed or suspended stays where it is. */
  lemma PriSetAnswers(s: State, t: nat, prio: nat)
    requires Inv(s)
    ensures s.Shape() && PRIORITIES <= |s.lists|
    ensures var r, s' := PriSetRet(s, t, prio), PriSet(s, t, prio);
      if prio >= 32 then r == PriorError && s' == s
      else if t == s.idle then r == OperateIdle && s' == s
      else if t == s.swtmr then r == OperateSwtmr && s' == s
      else if t >= |s.tcb| then r == IdInvalid && s' == s
      else if s.St(t).unused then r == NotCreated && s' == s
      else
        && r == Ok && Becomes(s', t, s.St(t), prio) && Others(s, s', t) && s'.wheel == s.wheel && s'.lock == s.lock
        && Runner(s, s', s.St(t).ready)
        && (if !s.St(t).ready then s'.lists == s.lists && s'.link == s.link
            else if s.tcb[t].prio == prio then ListsAre(s, s', prio, Without(s.lists[prio], t) + [t], NONE, [])
            else s.tcb[t].prio < |s.lists| && ListsAre(s, s', s.tcb[t].prio, Without(s.lists[s.tcb[t].prio], t), prio, s.lists[prio] + [t]))
  {
    InvShape(s);
    if PriSetRet(s, t, prio) == Ok {
      PriSetDoes(s, t, prio);
    }
  }

  lemma PriSetDoes(s: State, t: nat, prio: nat)
    requires Inv(s) && PriSetRet(s, t, prio) == Ok
    ensures var s' := PriSet(s, t, prio);
      && Becomes(s', t, s.St(t), prio) && Others(s, s', t) && s'.wheel == s.wheel && s'.lock == s.lock
      && Runner(s, s', s.St(t).ready)
      && (if !s.St(t).ready then s'.lists == s.lists && s'.link == s.link
          else if s.tcb[t].prio == prio then ListsAre(s, s', prio, Without(s.lists[prio], t) + [t], NONE, [])
          else s.tcb[t].prio < |s.lists| && ListsAre(s, s', s.tcb[t].prio, Without(s.lists[s.tcb[t].prio], t), prio, s.lists[prio] + [t]))
  {
    SetPrioDoes(s, t, prio);
    SetPrioKeeps(s, t, prio);
    var s1 := SetPrio(s, t, prio);
    var p := s.tcb[t].prio;
    hide Inv, SetPrio, Without, Becomes, Others, ListsAre, HeadsBest, WaitsKept, InvBeforeSchedule, Reschedule;
    if s.St(t).ready {
      Rescheduled(s, s1, t, s.St(t), prio);
      if s.lock != 0 {
        LockedSchedule(s1);
      }
      if p == prio {
        SameListsAre(s, s1, Reschedule(s1), p, Without(s.lists[p], t) + [t], NONE, []);
      } else {
        SameListsAre(s, s1, Reschedule(s1), p, Without(s.lists[p], t), prio, s.lists[prio] + [t]);
      }
    }
  }

  lemma SetPrioKeeps(s: State, t: nat, prio: nat)
    requires Inv(s) && t < |s.tcb| && prio < PRIORITIES
    ensures var s' := SetPrio(s, t, prio);
      s'.run == s.run && s'.lock == s.lock && s'.idle == s.idle && InvBeforeSchedule(s')
  {
    hide Without;
    assert TaskOk(s, t);
  }

  /** The new priority decides where a waiting task goes when it is woken. */
  lemma WokenAtNewPriority(s: State, t: nat, prio: nat, queue: bool)
    requires Inv(s) && PriSetRet(s, t, prio) == Ok && !s.St(t).suspend
    requires if queue then s.St(t).pendQueue else s.St(t).pend
    ensures var s1 := PriSet(s, t, prio);
      && t < |s1.tcb| && (if queue then s1.St(t).pendQueue else s1.St(t).pend)
      && prio < |s.lists| && prio < |Grant(s1, t, queue).lists|
      && Grant(s1, t, queue).lists[prio] == s.lists[prio] + [t]
  {
    InvTask(s, t);
    PriSetDoes(s, t, prio);
    var s1 := PriSet(s, t, prio);
    GrantDoes(s1, t, queue);
    InvTask(s1, t);
    hide Inv, PriSet, Grant, Without, WaitsKept, HeadsBest;
  }

  // ---------------------------------------------------------------- LOS_TaskSuspend, LOS_TaskResume

  /** Suspending is refused for the idle and the timer task, an unused or suspended one,
      and under the lock for the running one; any other task, ready or blocked, is
      suspended.  The running task then gives up the processor. */
  lemma SuspendAnswers(s: State, t: nat)
    requires Inv(s)
    ensures s.Shape()
    ensures var r, s' := SuspendRet(s, t), Suspend(s, t);
      if t == s.idle then r == OperateIdle && s' == s
      else if t == s.swtmr then r == OperateSwtmr && s' == s
      else if t >= |s.tcb| then r == IdInvalid && s' == s
      else if s.St(t).unused then r == NotCreated && s' == s
      else if s.St(t).suspend then r == AlreadySuspended && s' == s
      else if t == s.run && s.lock != 0 then r == SuspendLocked && s' == s
      else
        && r == Ok && Becomes(s', t, s.St(t).(suspend := true, ready := false), s.tcb[t].prio) && Others(s, s', t)
        && s'.wheel == s.wheel && s'.lock == s.lock && Runner(s, s', t == s.run)
        && (if s.St(t).ready then s.tcb[t].prio < |s.lists| && ListsAre(s, s', s.tcb[t].prio, Without(s.lists[s.tcb[t].prio], t), NONE, [])
            else s'.lists == s.lists && s'.link == s.link)
  {
    InvShape(s);
    if t < |s.tcb| {
      InvTask(s, t);
      if SuspendRet(s, t) == Ok {
        SuspendDoes(s, t);
        SuspendRuns(s, t);
      }
    }
    hide Inv, Suspend, Without, Becomes, Others, ListsAre, WaitsKept, HeadsBest;
  }

  lemma SuspendRuns(s: State, t: nat)
    requires Inv(s) && SuspendRet(s, t) == Ok
    ensures Suspend(s, t).lock == s.lock && Runner(s, Suspend(s, t), t == s.run)
  {
    InvTask(s, t);
    MarkSuspendedOk(s, t);
    hide LinksOk, TaskOk, HeadsBest, Without, WaitsKept, Schedule;
  }

  /** Resuming is refused for an unused task and one that is not suspended; any other is
      resumed, and one that is not blocked joins its ready list. */
  lemma ResumeAnswers(s: State, t: nat)
    requires Inv(s)
    ensures s.Shape()
    ensures var r, s' := ResumeRet(s, t), Resume(s, t);
      if t >= |s.tcb| then r == IdInvalid && s' == s
      else if s.St(t).unused then r == NotCreated && s' == s
      else if !s.St(t).suspend then r == NotSuspended && s' == s
      else
        var st, p := s.St(t), s.tcb[t].prio;
        var blocked := st.delay || st.pend || st.pendQueue;
        && r == Ok && p < |s.lists| && Becomes(s', t, st.(suspend := false, ready := !blocked), p) && Others(s, s', t)
        && s'.wheel == s.wheel && s'.lock == s.lock && Runner(s, s', !blocked)
        && (if blocked then s'.lists == s.lists && s'.link == s.link else ListsAre(s, s', p, s.lists[p] + [t], NONE, []))
  {
    InvShape(s);
    if ResumeRet(s, t) == Ok {
      ResumeDoes(s, t);
      ResumeRuns(s, t);
    }
    hide Inv, Resume, Becomes, Others, ListsAre, WaitsKept, HeadsBest;
  }

  lemma ResumeRuns(s: State, t: nat)
    requires Inv(s) && ResumeRet(s, t) == Ok
    ensures Resume(s, t).lock == s.lock && Runner(s, Resume(s, t), !Blocked(s.St(t)))
  {
    InvTask(s, t);
    UnsuspendOk(s, t);
    assert TaskOk(s, s.run);
    if !Blocked(s.St(t)) && s.lock != 0 {
      assert InvBeforeSchedule(Unsuspend(s, t));
      LockedSchedule(Unsuspend(s, t));
    }
    hide LinksOk, TaskOk, HeadsBest, Append, WaitsKept, Schedule;
  }

  // ---------------------------------------------------------------- LOS_TaskYield, LOS_TaskDelay

  /** Yielding succeeds exactly when another task of the same priority is ready. */
  lemma YieldAnswers(s: State)
    requires Inv(s)
    ensures s.Shape() && s.tcb[s.run].prio < PRIORITIES <= |s.lists| && s.run in s.lists[s.tcb[s.run].prio]
    ensures var r, s', p := YieldRet(s), Yield(s), s.tcb[s.run].prio;
      if s.lists[p] == [s.run] then r == YieldNotEnoughTask && s' == s
      else
        && r == Ok && Others(s, s', |s.tcb|) && s'.wheel == s.wheel && s'.lock == s.lock && Runner(s, s', true)
        && ListsAre(s, s', p, Without(s.lists[p], s.run) + [s.run], NONE, [])
  {
    RotateOk(s);
    InvTask(s, s.run);
    var p := s.tcb[s.run].prio;
    assert s.lists[p] == [s.run] <==> |s.lists[p]| <= 1;
    YieldDoes(s);
    YieldRuns(s);
    hide Inv, Yield, Without, Others, ListsAre, WaitsKept, HeadsBest;
  }

  lemma YieldRuns(s: State)
    requires Inv(s)
    ensures s.Shape() && s.tcb[s.run].prio < PRIORITIES
    ensures YieldRet(s) == Ok ==> Yield(s).lock == s.lock && Runner(s, Yield(s), true)
  {
    RotateOk(s);
    InvTask(s, s.run);
    hide LinksOk, TaskOk, HeadsBest, Without, WaitsKept, Schedule;
    if YieldRet(s) == Ok && s.lock != 0 {
      LockedSchedule(Rotate(s));
    }
  }

  /** A delay is refused under the lock; a delay of 0 ticks is a yield; any other puts the
      caller on the wheel for just that long. */
  lemma DelayAnswers(s: State, ticks: nat)
    requires Inv(s) && s.run != s.idle && !s.St(s.run).timeout
    ensures s.tcb[s.run].prio < PRIORITIES <= |s.lists|
    ensures var r, s', t, p := DelayRet(s, ticks), Delay(s, ticks), s.run, s.tcb[s.run].prio;
      if s.lock != 0 then r == DelayInLock && s' == s
      else if ticks == 0 then r == YieldRet(s) && s' == Yield(s)
      else
        && r == Ok && Becomes(s', t, s.St(t).(ready := false, delay := true), p) && Others(s, s', t)
        && s'.wheel == s.wheel[t := ticks] && ListsAre(s, s', p, Without(s.lists[p], t), NONE, []) && HeadsBest(s', s'.run)
  {
    RotateOk(s);
    if s.lock == 0 && 0 < ticks {
      DelayDoes(s, ticks);
    }
    hide Yield, Without, Others, Becomes, ListsAre, HeadsBest, WaitsKept, Sleep, Rotate;
  }

  // ---------------------------------------------------------------- scheduler lock

  /** The lock nests: only the unlock that brings the count to 0 calls the scheduler, and
      an unlock without a lock does nothing. */
  lemma LockAnswers(s: State)
    requires Inv(s)
    ensures s.lock <= 0xFFFF ==> LockStep(s) == s.(lock := if s.lock == 0xFFFF then 0 else s.lock + 1)
    ensures s.lock == 0 ==> Unlock(s) == s
    ensures s.lock > 1 ==> Unlock(s) == s.(lock := s.lock - 1)
    ensures s.lock == 1 ==>
              var s' := Unlock(s);
              s'.lock == 0 && s'.lists == s.lists && s'.wheel == s.wheel && Others(s, s', |s.tcb|) && HeadsBest(s', s'.run)
  {
    LockFrame(s, 0);
    hide Base, HeadsBest, WaitsKept;
    if s.lock == 1 {
      ScheduleMoves(s.(lock := 0));
    }
  }

  /** Locking and unlocking again is nothing, unless the 16-bit count wraps. */
  lemma UnlockUndoesLock(s: State)
    requires Inv(s) && 0 < s.lock < 0xFFFF
    ensures Inv(LockStep(s)) && Unlock(LockStep(s)) == s
  {
    LockFrame(s, s.lock + 1);
    LockAnswers(LockStep(s));
    hide Inv, Unlock;
  }

  /** The woken call notes its timeout and forgets it; nothing else changes. */
  lemma ClearTimeoutAnswers(s: State)
    requires Inv(s)
    ensures s.Shape()
    ensures var s' := ClearTimeout(s);
      s' == s.(tcb := s.tcb[s.run := Tcb(s.St(s.run).(timeout := false), s.tcb[s.run].prio)])
  {
    InvShape(s);
    hide Base, WaitsKept;
  }

  // ---------------------------------------------------------------- LOS_TaskDelete, LOS_TaskCreate

  /** Deleting is refused for the idle and the timer task and an unused one. */
  lemma DeleteAnswers(s: State, t: nat)
    requires Inv(s) && (t < |s.tcb| ==> t != s.run && !TimedOut(s, t))
    ensures s.Shape()
    ensures var r, s' := DeleteRet(s, t), Delete(s, t);
      if t == s.idle then r == OperateIdle && s' == s
      else if t == s.swtmr then r == OperateSwtmr && s' == s
      else if t >= |s.tcb| then r == IdInvalid && s' == s
      else if s.St(t).unused then r == NotCreated && s' == s
      else
        && r == Ok && s.link[t] < |s.lists| && Becomes(s', t, UNUSED, s.tcb[t].prio) && Others(s, s', t)
        && s'.wheel == s.wheel - {t} && s'.run == s.run && s'.lock == s.lock
        && ListsAre(s, s', FREE, [t] + s.lists[FREE], s.link[t], if 0 <= s.link[t] then Without(s.lists[s.link[t]], t) else [])
  {
    InvShape(s);
    if DeleteRet(s, t) == Ok {
      InvTask(s, t);
      DeleteDoes(s, t);
      DeleteRuns(s, t);
    }
    hide Inv, Delete, Without, Becomes, Others, ListsAre, WaitsKept;
  }

  lemma DeleteRuns(s: State, t: nat)
    requires Inv(s) && DeleteRet(s, t) == Ok && t != s.run && !TimedOut(s, t)
    ensures Delete(s, t).run == s.run && Delete(s, t).lock == s.lock
  {
    InvTask(s, t);
    hide LinksOk, TaskOk, Without, WaitsKept;
    DiscardOk(s, t);
  }

  /** Creating is refused for a priority out of range, for the lowest unless the task is the
      idle task, and when there is no control block or no memory, in this order. */
  lemma CreateAnswers(s: State, prio: nat, idleEntry: bool, memory: bool)
    requires Inv(s)
    ensures s.Shape() && FREE < |s.lists|
    ensures var r, s' := CreateRet(s, prio, idleEntry, memory), Create(s, prio, idleEntry, memory);
      if prio > 31 || (prio == 31 && !idleEntry) then r == PriorError && s' == s
      else if s.lists[FREE] == [] then r == TcbUnavailable && s' == s
      else if !memory then r == NoMemory && s' == s
      else
        var t := s.lists[FREE][0];
        && r == Ok && Becomes(s', t, READY, prio) && Others(s, s', t) && s'.wheel == s.wheel && Runner(s, s', true)
        && ListsAre(s, s', FREE, s.lists[FREE][1..], prio, s.lists[prio] + [t])
  {
    InvShape(s);
    if CreateRet(s, prio, idleEntry, memory) == Ok {
      CreateDoes(s, prio, idleEntry);
      CreateRuns(s, prio, idleEntry);
    }
    hide Inv, Create, Becomes, Others, ListsAre, WaitsKept, HeadsBest;
  }

  lemma CreateRuns(s: State, prio: nat, idleEntry: bool)
    requires Inv(s) && CreateRet(s, prio, idleEntry, true) == Ok
    ensures Runner(s, Create(s, prio, idleEntry, true), true)
  {
    CreateSteps(s, prio, idleEntry);
    hide LinksOk, TaskOk, HeadsBest, WaitsKept, Schedule, Create;
    if s.lock != 0 {
      LockedSchedule(Admit(s, s.lists[FREE][0], prio));
    }
  }

  // ---------------------------------------------------------------- the tick

  /** Of the released tasks those that become ready at priority `p`, in their order. */
  function Readied(s: State, released: seq<nat>, p: nat): seq<nat> {
    if released == [] then []
    else
      var t := released[0];
      (if t < |s.tcb| && s.tcb[t].prio == p && !s.St(t).suspend then [t] else []) + Readied(s, released[1..], p)
  }

  lemma {:induction false} SameReadied(s: State, s': State, released: seq<nat>, p: nat)
    requires |s'.tcb| == |s.tcb|
    requires forall t <- released | t < |s.tcb| :: s'.tcb[t].prio == s.tcb[t].prio && s'.St(t).suspend == s.St(t).suspend
    ensures Readied(s', released, p) == Readied(s, released, p)
  {
    if released != [] {
      assert released[0] in released;
      SameReadied(s, s', released[1..], p);
    }
  }

  lemma ExpiryReadies(s: State, t: nat, p: nat)
    requires Base(s) && t in s.wheel && p < PRIORITIES
    ensures t < |s.tcb| && s.tcb[t].prio < PRIORITIES && (s.St(t).pend || s.St(t).pendQueue ==> 0 <= s.link[t] < |s.lists|)
    ensures p < |s.lists| && p < |Expire(s, t).lists| && |Expire(s, t).tcb| == |s.tcb|
    ensures forall x | 0 <= x < |s.tcb| && x != t :: Expire(s, t).tcb[x].prio == s.tcb[x].prio && Expire(s, t).St(x).suspend == s.St(x).suspend
    ensures Expire(s, t).lists[p] == s.lists[p] + if s.tcb[t].prio == p && !s.St(t).suspend then [t] else []
  {
    ExpiryDoes(s, t);
    assert TaskOk(s, t);
    hide Expire, Without, LinksOk, Becomes;
  }

  lemma ExpireFirst(s: State, released: seq<nat>)
    requires Base(s) && s.tcb[s.run].st.ready && Distinct(released) && released != [] && forall t <- released :: t in s.wheel
    ensures var t := released[0];
      && t in s.wheel && t < |s.tcb| && s.tcb[t].prio < PRIORITIES && (s.St(t).pend || s.St(t).pendQueue ==> 0 <= s.link[t] < |s.lists|)
      && (var s1 := Expire(s, t);
          && Base(s1) && s1.tcb[s1.run].st.ready && (forall x <- released[1..] :: x in s1.wheel)
          && ExpireAll(s, released) == ExpireAll(s1, released[1..]))
    ensures Distinct(released[1..]) && released[0] !in released[1..]
  {
    var t := released[0];
    assert t in released;
    ExpireOk(s, t);
    assert TaskOk(s, t);
    ExpireEffect(s, t);
    RestNamed(released, Expire(s, t).wheel, s.wheel, t);
    hide Expire, TaskOk, LinksOk, WaitsKept, Released;
  }

  lemma ExpireNone(s: State, p: nat)
    requires Base(s) && s.tcb[s.run].st.ready && p < PRIORITIES
    ensures s.Shape() && p < |s.lists| && ExpireAll(s, []) == s && Readied(s, [], p) == []
  {
    hide TaskOk, ListOk;
  }

  lemma ReadiedFirst(s: State, released: seq<nat>, p: nat)
    requires released != [] && released[0] < |s.tcb|
    ensures var t := released[0];
      Readied(s, released, p) == (if s.tcb[t].prio == p && !s.St(t).suspend then [t] else []) + Readied(s, released[1..], p)
  {
  }

  lemma {:induction false} ExpireAllReadies(s: State, released: seq<nat>, p: nat)
    requires Base(s) && s.tcb[s.run].st.ready && Distinct(released) && (forall t <- released :: t in s.wheel) && p < PRIORITIES
    ensures p < |s.lists| && ExpireAll(s, released).lists[p] == s.lists[p] + Readied(s, released, p)
    decreases |released|
  {
    hide *;
    ExpireNone(s, p);
    if released != [] {
      var t, rest := released[0], released[1..];
      ExpireFirst(s, released);
      ReadiedFirst(s, released, p);
      ExpiryReadies(s, t, p);
      var s1 := Expire(s, t);
      ExpireAllReadies(s1, rest, p);
      SameReadied(s, s1, rest, p);
      Joined(s.lists[p], if s.tcb[t].prio == p && !s.St(t).suspend then [t] else [], Readied(s, rest, p));
    }
  }

  lemma Joined(a: seq<nat>, b: seq<nat>, c: seq<nat>)
    ensures (a + b) + c == a + (b + c) && a + [] == a
  {
  }

  lemma RestNamed(released: seq<nat>, wheel': map<nat, nat>, wheel: map<nat, nat>, t: nat)
    requires Distinct(released) && released != [] && t == released[0] && wheel' == wheel - {t} && forall x <- released :: x in wheel
    ensures Distinct(released[1..]) && t !in released[1..] && forall x <- released[1..] :: x in wheel'
  {
    forall x <- released[1..] ensures x != t && x in released {
    }
  }

  /** A tick appends to each ready list the released tasks of its priority that are not
      suspended, in the order in which the wheel gives them up. */
  lemma TickReadies(s: State, released: seq<nat>, p: nat)
    requires Inv(s) && Wheel.Expiring(s.wheel, released) && p < PRIORITIES
    ensures p < |s.lists| && Scan(s, released).lists[p] == s.lists[p] + Readied(s, released, p)
  {
    var s0 := s.(wheel := Decrement(s.wheel));
    DecrementOk(s);
    assert forall t <- released :: t in s0.wheel;
    ExpireAllReadies(s0, released, p);
    SameReadied(s, s0, released, p);
    ExpireAllWheel(s0, released);
    hide ExpireAll, HeadsBest, TaskOk, LinksOk;
    if NeedSchedule(s, released) {
      ScheduleMoves(ExpireAll(s0, released));
    }
  }

  lemma {:induction false} NobodyReadied(s: State, released: seq<nat>, p: nat)
    requires !NeedSchedule(s, released)
    ensures Readied(s, released, p) == []
  {
    if released != [] {
      forall i | 0 <= i < |released[1..]| ensures !(released[1..][i] < |s.tcb| && !s.tcb[released[1..][i]].st.suspend) {
        assert released[1..][i] == released[i + 1];
      }
      NobodyReadied(s, released[1..], p);
    }
  }

  lemma TickRuns(s: State, released: seq<nat>)
    requires Inv(s) && Wheel.Expiring(s.wheel, released)
    ensures Scan(s, released).lock == s.lock && Runner(s, Scan(s, released), NeedSchedule(s, released))
  {
    var s0 := s.(wheel := Decrement(s.wheel));
    DecrementOk(s);
    ExpireAllWheel(s0, released);
    hide HeadsBest, TaskOk, LinksOk, Released;
    if NeedSchedule(s, released) && s.lock != 0 {
      LockedSchedule(ExpireAll(s0, released));
    }
  }
}
