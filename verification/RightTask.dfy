/** Whether the right task runs.  A call of the kernel schedules only where its author saw
    a need.  This module proves that this is enough: but for the bare wake-up and the
    bare change of priority inside calls of other components, no step leaves a task
    running that is not the head of the best ready list. */
module RightTask {
  import opened Tasks
  import opened Kernel
  import opened TaskCalls
  import opened TaskAnswers
  import Wheel = TaskWheel

  /** Outside a scheduler lock the running task heads the best non-empty ready list. */
  ghost predicate RightRuns(s: State) {
    s.lock == 0 ==> HeadsBest(s, s.run)
  }

  /** osTaskWake and osTaskPriModify leave the scheduling to their callers; a lock count of
      65535 would wrap. */
  predicate Whole(s: State, op: Op) {
    !op.OpGrant? && !op.OpSetPrio? && (op.OpLock? ==> s.lock < 0xFFFF)
  }

  lemma SameListsHead(s: State, s': State)
    requires HeadsBest(s, s.run) && s'.run == s.run && |s'.lists| == |s.lists|
    requires forall p | 0 <= p < PRIORITIES <= |s.lists| :: s'.lists[p] == s.lists[p]
    ensures HeadsBest(s', s'.run)
  {
  }

  /** Another task leaves its list. */
  lemma OneLess(s: State, s': State, t: nat, l: int)
    requires HeadsBest(s, s.run) && s'.run == s.run && t != s.run && |s'.lists| == |s.lists|
    requires forall p | 0 <= p < PRIORITIES <= |s.lists| :: s'.lists[p] == if p == l then Without(s.lists[p], t) else s.lists[p]
    ensures HeadsBest(s', s'.run)
  {
    var p :| 0 <= p < PRIORITIES <= |s.lists|
      && s.lists[p] != [] && s.lists[p][0] == s.run && forall q | 0 <= q < p :: s.lists[q] == [];
    assert s'.lists[p] != [] && s'.lists[p][0] == s.run;
    assert forall q | 0 <= q < p :: s'.lists[q] == [];
  }

  lemma SuspendRight(s: State, t: nat)
    requires Inv(s) && RightRuns(s)
    ensures RightRuns(Suspend(s, t))
  {
    SuspendAnswers(s, t);
    hide Inv, Suspend, Without, Becomes, Others, WaitsKept, HeadsBest;
    if s.lock == 0 && SuspendRet(s, t) == Ok && t != s.run {
      if s.St(t).ready {
        OneLess(s, Suspend(s, t), t, s.tcb[t].prio);
      } else {
        SameListsHead(s, Suspend(s, t));
      }
    }
  }

  lemma ResumeRight(s: State, t: nat)
    requires Inv(s) && RightRuns(s)
    ensures RightRuns(Resume(s, t))
  {
    ResumeAnswers(s, t);
    hide Inv, Resume, Becomes, Others, WaitsKept, HeadsBest;
    if s.lock == 0 && ResumeRet(s, t) == Ok && Blocked(s.St(t)) {
      SameListsHead(s, Resume(s, t));
    }
  }

  lemma PriSetRight(s: State, t: nat, prio: nat)
    requires Inv(s) && RightRuns(s)
    ensures RightRuns(PriSet(s, t, prio))
  {
    PriSetAnswers(s, t, prio);
    hide Inv, PriSet, Without, Becomes, Others, WaitsKept, HeadsBest;
    if s.lock == 0 && PriSetRet(s, t, prio) == Ok && !s.St(t).ready {
      SameListsHead(s, PriSet(s, t, prio));
    }
  }

  lemma DelayRight(s: State, ticks: nat)
    requires Inv(s) && s.run != s.idle && !s.St(s.run).timeout && RightRuns(s)
    ensures RightRuns(Delay(s, ticks))
  {
    DelayAnswers(s, ticks);
    YieldAnswers(s);
    hide Inv, Delay, Yield, Without, Becomes, Others, WaitsKept, HeadsBest;
  }

  lemma DeleteRight(s: State, t: nat)
    requires Inv(s) && (t < |s.tcb| ==> t != s.run && !TimedOut(s, t)) && RightRuns(s)
    ensures RightRuns(Delete(s, t))
  {
    DeleteAnswers(s, t);
    hide Inv, Delete, Without, Becomes, Others, WaitsKept, HeadsBest;
    if s.lock == 0 && DeleteRet(s, t) == Ok {
      OneLess(s, Delete(s, t), t, s.link[t]);
    }
  }

  lemma TickRight(s: State, released: seq<nat>)
    requires Inv(s) && Wheel.Expiring(s.wheel, released) && RightRuns(s)
    ensures RightRuns(Scan(s, released))
  {
    TickRuns(s, released);
    forall p | 0 <= p < PRIORITIES
      ensures p < |s.lists| && (!NeedSchedule(s, released) ==> Scan(s, released).lists[p] == s.lists[p])
    {
      TickReadies(s, released, p);
      if !NeedSchedule(s, released) {
        NobodyReadied(s, released, p);
        assert s.lists[p] + [] == s.lists[p];
      }
    }
    hide Inv, Scan, HeadsBest, NeedSchedule;
    if s.lock == 0 && !NeedSchedule(s, released) {
      SameListsHead(s, Scan(s, released));
    }
  }

  lemma YieldRight(s: State)
    requires Inv(s) && RightRuns(s)
    ensures RightRuns(Yield(s))
  {
    hide Inv, Yield, Without, Others, ListsAre, WaitsKept, HeadsBest;
    YieldAnswers(s);
  }

  lemma UnlockRight(s: State)
    requires Inv(s) && RightRuns(s)
    ensures RightRuns(Unlock(s))
  {
    hide Inv, Unlock, Others, WaitsKept, HeadsBest;
    LockAnswers(s);
  }

  lemma LockRight(s: State)
    requires Inv(s) && RightRuns(s) && s.lock < 0xFFFF
    ensures RightRuns(LockStep(s))
  {
    hide Inv, HeadsBest, Unlock;
    LockAnswers(s);
  }

  lemma ClearTimeoutRight(s: State)
    requires Inv(s) && RightRuns(s)
    ensures RightRuns(ClearTimeout(s))
  {
    hide Inv, ClearTimeout, WaitsKept, HeadsBest;
    ClearTimeoutAnswers(s);
    if s.lock == 0 {
      SameListsHead(s, ClearTimeout(s));
    }
  }

  lemma CreateRight(s: State, prio: nat, idleEntry: bool, memory: bool)
    requires Inv(s) && RightRuns(s)
    ensures RightRuns(Create(s, prio, idleEntry, memory))
  {
    hide Inv, Create, Becomes, Others, ListsAre, WaitsKept, HeadsBest;
    CreateAnswers(s, prio, idleEntry, memory);
    CreateKeepsLock(s, prio, idleEntry, memory);
  }

  lemma CreateKeepsLock(s: State, prio: nat, idleEntry: bool, memory: bool)
    requires Inv(s)
    ensures Create(s, prio, idleEntry, memory).lock == s.lock
  {
    if CreateRet(s, prio, idleEntry, memory) == Ok {
      CreateSteps(s, prio, idleEntry);
      hide LinksOk, TaskOk, HeadsBest, WaitsKept, Schedule, Create;
    }
  }

  /** Every whole step that finds the right task running leaves the right task running,
      whether its code schedules or not. */
  lemma StepKeepsRight(s: State, op: Op)
    requires Inv(s) && Enabled(s, op) && Whole(s, op) && RightRuns(s)
    ensures RightRuns(Apply(s, op))
  {
    hide Inv, Block, Scan, Reschedule, Suspend, Resume, Yield, Delay, PriSet, Unlock, Create, Delete, ClearTimeout, HeadsBest, WaitsKept;
    match op
    case OpBlock(l, queue, timeout) =>
    case OpTick(released) => TickRight(s, released);
    case OpPriSet(t, prio) => PriSetRight(s, t, prio);
    case OpSuspend(t) => SuspendRight(s, t);
    case OpResume(t) => ResumeRight(s, t);
    case OpDelay(ticks) => DelayRight(s, ticks);
    case OpDelete(t) => DeleteRight(s, t);
    case OpYield => YieldRight(s);
    case OpLock => LockRight(s);
    case OpUnlock => UnlockRight(s);
    case OpClearTimeout => ClearTimeoutRight(s);
    case OpCreate(prio, idleEntry, memory) => CreateRight(s, prio, idleEntry, memory);
    case OpSchedule =>
  }

  /** Once the scheduler has been called at step `i`, or the right task runs anyway, it
      runs in every later state, over any run, up to the next bare wake-up or change of
      priority: there is no step after which a call to the scheduler is missing. */
  lemma {:induction false} RightTaskRuns(states: seq<State>, ops: seq<Op>, i: nat, n: nat)
    requires IsRun(states, ops) && i < n <= |ops|
    requires RightRuns(states[i]) || ops[i].OpSchedule?
    requires forall j | i <= j < n :: Whole(states[j], ops[j])
    ensures Inv(states[n]) && RightRuns(states[n])
    decreases n
  {
    hide Apply, Enabled, Inv, RightRuns;
    assert StepTo(states[n - 1], ops[n - 1], states[n - 1 + 1]);
    if n == i + 1 {
      if ops[i].OpSchedule? {
        ScheduleRight(states[i]);
      } else {
        StepKeepsRight(states[i], ops[i]);
      }
    } else {
      RightTaskRuns(states, ops, i, n - 1);
      StepKeepsRight(states[n - 1], ops[n - 1]);
    }
  }

  lemma ScheduleRight(s: State)
    requires Inv(s)
    ensures Enabled(s, OpSchedule) && RightRuns(Apply(s, OpSchedule))
  {
    hide HeadsBest, Reschedule, WaitsKept, LinksOk, TaskOk;
  }
}
