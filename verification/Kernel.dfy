/** The task calls of los_task.c, the relation of all kernel steps, and what holds
    over whole runs of them. */
module Kernel {
  import opened Tasks
  import Wheel = TaskWheel

  // ---------------------------------------------------------------- LOS_TaskSuspend

  function CheckTaskId(s: State, t: nat): Ret {
    if t == s.idle then OperateIdle
    else if t == s.swtmr then OperateSwtmr
    else if t >= |s.tcb| then IdInvalid
    else Ok
  }

  function SuspendRet(s: State, t: nat): Ret
    requires s.Shape()
  {
    if CheckTaskId(s, t) != Ok then CheckTaskId(s, t)
    else if s.St(t).unused then NotCreated
    else if s.St(t).suspend then AlreadySuspended
    else if s.St(t).running && s.lock != 0 then SuspendLocked
    else Ok
  }

  function MarkSuspended(s: State, t: nat): State
    requires s.Shape() && t < |s.tcb| && (s.St(t).ready ==> 0 <= s.link[t] < |s.lists|)
  {
    var s1 := if s.St(t).ready then Unlink(s, t) else s;
    s1.With(t, s.St(t).(ready := false, suspend := true))
  }

  lemma MarkSuspendedOk(s: State, t: nat)
    requires Base(s) && t < |s.tcb| && t != s.idle && !s.St(t).unused
    ensures s.St(t).ready ==> 0 <= s.link[t] < |s.lists|
    ensures Base(MarkSuspended(s, t))
    ensures WaitsKept(s, MarkSuspended(s, t), {}, {})
  {
    hide Without;
    assert TaskOk(s, t);
    if s.St(t).ready {
      UnlinkLinks(s, t);
    }
    OneTaskStep(s, MarkSuspended(s, t), t);
  }

  ghost function Suspend(s: State, t: nat): (s': State)
    requires Inv(s)
    ensures Inv(s') && WaitsKept(s, s', {}, {})
    ensures SuspendRet(s, t) == Ok && t == s.run ==> HeadsBest(s', s'.run) && s'.run != t
    ensures SuspendRet(s, t) == Ok ==> s'.tcb[t].st.suspend && !s'.tcb[t].st.ready
  {
    NothingKept(s);
    if SuspendRet(s, t) != Ok then s
    else
      assert TaskOk(s, t) && TaskOk(s, s.run);
      MarkSuspendedOk(s, t);
      var s1 := MarkSuspended(s, t);
      if t == s.run then
        SchedulePast(s1);
        KeptThenKept(s, s1, Reschedule(s1), {}, {});
        Reschedule(s1)
      else s1
  }

  /** A task that is not ready is not picked, and scheduling does not touch it. */
  lemma SchedulePast(s: State)
    requires InvBeforeSchedule(s) && s.lock == 0 && !s.tcb[s.run].st.ready
    ensures Reschedule(s).run != s.run
    ensures Reschedule(s).tcb[s.run].st.suspend == s.tcb[s.run].st.suspend
    ensures !Reschedule(s).tcb[s.run].st.ready
  {
    ScheduleOk(s);
    assert Reschedule(s).lists == s.lists;
    assert TaskOk(Reschedule(s), s.run) && TaskOk(s, s.run);
  }

  // ---------------------------------------------------------------- LOS_TaskResume

  function ResumeRet(s: State, t: nat): Ret
    requires s.Shape()
  {
    if t >= |s.tcb| then IdInvalid
    else if s.St(t).unused then NotCreated
    else if !s.St(t).suspend then NotSuspended
    else Ok
  }

  function Blocked(st: Status): bool {
    st.delay || st.pend || st.pendQueue
  }

  function Unsuspend(s: State, t: nat): State
    requires s.Shape() && t < |s.tcb| && s.tcb[t].prio < |s.lists|
  {
    var st := s.St(t).(suspend := false);
    if Blocked(st) then s.With(t, st) else MakeReady(s.With(t, st), t)
  }

  lemma UnsuspendOk(s: State, t: nat)
    requires Base(s) && t < |s.tcb| && s.St(t).suspend
    ensures s.tcb[t].prio < PRIORITIES && Base(Unsuspend(s, t))
    ensures WaitsKept(s, Unsuspend(s, t), {}, {})
  {
    assert TaskOk(s, t);
    AppendLinksIfFree(s, s.tcb[t].prio, t);
    OneTaskStep(s, Unsuspend(s, t), t);
  }

  lemma AppendLinksIfFree(s: State, l: nat, t: nat)
    requires LinksOk(s) && t < |s.tcb| && l < |s.lists|
    ensures s.link[t] == UNLINKED ==> LinksOk(Append(s, l, t))
  {
    if s.link[t] == UNLINKED {
      AppendLinks(s, l, t);
    }
  }

  /** A delayed or waiting task that is resumed keeps waiting. */
  ghost function Resume(s: State, t: nat): (s': State)
    requires Inv(s)
    ensures Inv(s') && WaitsKept(s, s', {}, {})
    ensures ResumeRet(s, t) == Ok && !Blocked(s.St(t)) && s.lock == 0 ==> HeadsBest(s', s'.run)
  {
    NothingKept(s);
    if ResumeRet(s, t) != Ok then s
    else
      assert TaskOk(s, t) && TaskOk(s, s.run);
      UnsuspendOk(s, t);
      var s1 := Unsuspend(s, t);
      if Blocked(s.St(t)) then s1
      else
        KeptThenKept(s, s1, Reschedule(s1), {}, {});
        Reschedule(s1)
  }

  // ---------------------------------------------------------------- LOS_TaskYield, LOS_TaskDelay

  function YieldRet(s: State): Ret
    requires s.Shape() && s.tcb[s.run].prio < |s.lists|
  {
    if !s.St(s.run).ready then Ok
    else if |s.lists[s.tcb[s.run].prio]| > 1 then Ok else YieldNotEnoughTask
  }

  function Rotate(s: State): State
    requires s.Shape() && 0 <= s.link[s.run] < |s.lists| && s.tcb[s.run].prio < |s.lists|
  {
    Append(Unlink(s, s.run), s.tcb[s.run].prio, s.run)
  }

  lemma RotateOk(s: State)
    requires Inv(s)
    ensures s.link[s.run] == s.tcb[s.run].prio < PRIORITIES
    ensures InvBeforeSchedule(Rotate(s)) && WaitsKept(s, Rotate(s), {}, {})
  {
    hide Without;
    assert TaskOk(s, s.run);
    UnlinkLinks(s, s.run);
    AppendLinks(Unlink(s, s.run), s.tcb[s.run].prio, s.run);
    OneTaskStep(s, Rotate(s), s.run);
  }

  /** The running task goes behind the other ready tasks of its priority. */
  ghost function Yield(s: State): (s': State)
    requires Inv(s)
    ensures Inv(s') && WaitsKept(s, s', {}, {})
    ensures s.tcb[s.run].prio < PRIORITIES
    ensures YieldRet(s) == Ok && s.lock == 0 ==> HeadsBest(s', s'.run)
  {
    RotateOk(s);
    NothingKept(s);
    if YieldRet(s) != Ok then s
    else
      KeptThenKept(s, Rotate(s), Reschedule(Rotate(s)), {}, {});
      Reschedule(Rotate(s))
  }

  function Sleep(s: State, ticks: nat): State
    requires s.Shape() && 0 <= s.link[s.run] < |s.lists|
  {
    Unlink(s, s.run).With(s.run, s.St(s.run).(ready := false, delay := true)).(wheel := s.wheel[s.run := ticks])
  }

  lemma SleepOk(s: State, ticks: nat)
    requires Inv(s) && s.lock == 0 && s.run != s.idle && !s.St(s.run).timeout && 0 < ticks
    ensures s.link[s.run] == s.tcb[s.run].prio < PRIORITIES
    ensures InvBeforeSchedule(Sleep(s, ticks)) && WaitsKept(s, Sleep(s, ticks), {s.run}, {})
  {
    hide Without;
    assert TaskOk(s, s.run);
    UnlinkLinks(s, s.run);
    OneTaskStep(s, Sleep(s, ticks), s.run);
  }

  function DelayRet(s: State, ticks: nat): Ret
    requires s.Shape() && s.tcb[s.run].prio < |s.lists|
  {
    if s.lock != 0 then DelayInLock else if ticks == 0 then YieldRet(s) else Ok
  }

  /** LOS_TaskDelay; a delay of 0 is a yield. */
  ghost function Delay(s: State, ticks: nat): (s': State)
    requires Inv(s) && s.run != s.idle && !s.St(s.run).timeout
    ensures Inv(s') && WaitsKept(s, s', {s.run}, {})
    ensures s.tcb[s.run].prio < PRIORITIES
    ensures DelayRet(s, ticks) == Ok ==> HeadsBest(s', s'.run)
    ensures DelayRet(s, ticks) == Ok && 0 < ticks ==> s.run in s'.wheel && s'.wheel[s.run] == ticks
  {
    RotateOk(s);
    NothingKept(s);
    if s.lock != 0 then s
    else if ticks == 0 then Yield(s)
    else
      SleepOk(s, ticks);
      var s1 := Sleep(s, ticks);
      KeptThenKept(s, s1, Reschedule(s1), {s.run}, {});
      assert SameWait(s1, Reschedule(s1), s.run);
      Reschedule(s1)
  }

  // ---------------------------------------------------------------- priorities

  function PriSetRet(s: State, t: nat, prio: nat): Ret
    requires s.Shape()
  {
    if prio >= PRIORITIES then PriorError
    else if t == s.idle then OperateIdle
    else if t == s.swtmr then OperateSwtmr
    else if t >= |s.tcb| then IdInvalid
    else if s.St(t).unused then NotCreated
    else Ok
  }

  lemma PriModifyKept(s: State, t: nat, prio: nat)
    requires Base(s) && t < |s.tcb| && prio < PRIORITIES
    ensures s.St(t).ready ==> 0 <= s.link[t] < |s.lists|
    ensures WaitsKept(s, PriModify(s, t, prio), {}, {})
    ensures forall x | 0 <= x < |s.tcb| :: PriModify(s, t, prio).tcb[x].st == s.tcb[x].st
  {
    hide Without;
    assert TaskOk(s, t);
  }

  /** osTaskPriModify, as the mutex calls use it: no scheduling. */
  ghost function SetPrio(s: State, t: nat, prio: nat): (s': State)
    requires Inv(s) && t < |s.tcb| && prio < PRIORITIES
    ensures Inv(s') && WaitsKept(s, s', {}, {}) && s'.tcb[t].prio == prio
  {
    assert TaskOk(s, s.run);
    PriModifyOk(s, t, prio);
    PriModifyKept(s, t, prio);
    PriModify(s, t, prio)
  }

  ghost function PriSet(s: State, t: nat, prio: nat): (s': State)
    requires Inv(s)
    ensures Inv(s') && WaitsKept(s, s', {}, {})
    ensures PriSetRet(s, t, prio) == Ok && s.St(t).ready && s.lock == 0 ==> HeadsBest(s', s'.run)
  {
    NothingKept(s);
    if PriSetRet(s, t, prio) != Ok then s
    else if s.St(t).ready then
      KeptThenKept(s, SetPrio(s, t, prio), Reschedule(SetPrio(s, t, prio)), {}, {});
      Reschedule(SetPrio(s, t, prio))
    else SetPrio(s, t, prio)
  }

  // ---------------------------------------------------------------- scheduler lock

  /** LOS_TaskLock; the count is a UINT16. */
  function LockStep(s: State): State {
    s.(lock := (s.lock + 1) % 0x1_0000)
  }

  lemma LockFrame(s: State, lock: nat)
    requires Inv(s)
    ensures Inv(s.(lock := lock)) && WaitsKept(s, s.(lock := lock), {}, {})
  {
    var s' := s.(lock := lock);
    forall t | 0 <= t < |s.tcb| ensures TaskOk(s', t) && SameWait(s, s', t) {
      assert TaskOk(s, t);
    }
  }

  ghost function Unlock(s: State): (s': State)
    requires Inv(s)
    ensures Inv(s') && WaitsKept(s, s', {}, {})
    ensures s.lock == 1 ==> HeadsBest(s', s'.run)
  {
    LockFrame(s, s.lock);
    if s.lock == 0 then s
    else
      LockFrame(s, s.lock - 1);
      var s1 := s.(lock := s.lock - 1);
      if s1.lock == 0 then
        KeptThenKept(s, s1, Reschedule(s1), {}, {});
        Reschedule(s1)
      else s1
  }

  /** The check after a wait: the woken task clears its TIMEOUT. */
  ghost function ClearTimeout(s: State): (s': State)
    requires Inv(s)
    ensures Inv(s') && WaitsKept(s, s', {s.run}, {})
    ensures !s'.tcb[s.run].st.timeout && s'.run == s.run
  {
    var s' := s.With(s.run, s.St(s.run).(timeout := false));
    assert TaskOk(s, s.run);
    OneTaskStep(s, s', s.run);
    s'
  }

  // ---------------------------------------------------------------- LOS_TaskDelete, LOS_TaskCreate

  function DeleteRet(s: State, t: nat): Ret
    requires s.Shape()
  {
    if CheckTaskId(s, t) != Ok then CheckTaskId(s, t)
    else if s.St(t).unused then NotCreated
    else Ok
  }

  /** The scan has ended `t`'s wait and `t` has not run since. */
  predicate TimedOut(s: State, t: nat)
    requires t < |s.tcb|
  {
    s.St(t).timeout && !s.St(t).pend && !s.St(t).pendQueue
  }

  function Discard(s: State, t: nat): State
    requires s.Shape() && t < |s.tcb| && FREE < |s.lists|
    requires s.St(t).ready || s.St(t).pend || s.St(t).pendQueue ==> 0 <= s.link[t] < |s.lists|
  {
    var s1 := if s.St(t).ready || s.St(t).pend || s.St(t).pendQueue then Unlink(s, t) else s;
    var s2 := if s.St(t).delay || s.St(t).timeout then s1.(wheel := s.wheel - {t}) else s1;
    Prepend(s2.With(t, UNUSED), FREE, t)
  }

  lemma DiscardOk(s: State, t: nat)
    requires Base(s) && t < |s.tcb| && t != s.idle && t != s.run && !s.St(t).unused && !TimedOut(s, t)
    ensures s.St(t).ready || s.St(t).pend || s.St(t).pendQueue ==> 0 <= s.link[t] < |s.lists|
    ensures Base(Discard(s, t)) && Discard(s, t).wheel == s.wheel - {t}
  {
    hide Without, ListOk, Distinct;
    assert TaskOk(s, t);
    var s1 := if s.St(t).ready || s.St(t).pend || s.St(t).pendQueue then Unlink(s, t) else s;
    if s1 != s {
      UnlinkLinks(s, t);
    }
    PrependLinks(s1, FREE, t);
    SameLinks(Prepend(s1, FREE, t), Discard(s, t));
    OneTaskStep(s, Discard(s, t), t);
  }

  lemma DiscardKept(s: State, t: nat)
    requires Base(s) && t < |s.tcb| && !s.St(t).unused && !TimedOut(s, t)
    ensures s.St(t).ready || s.St(t).pend || s.St(t).pendQueue ==> 0 <= s.link[t] < |s.lists|
    ensures WaitsKept(s, Discard(s, t), {t}, {s.link[t]})
    ensures FIRST_WAIT <= s.link[t] ==> Discard(s, t).lists[s.link[t]] == Without(s.lists[s.link[t]], t)
  {
    hide Without;
    assert TaskOk(s, t);
  }

  /** LOS_TaskDelete on a task other than the running one and not timed out. */
  ghost function Delete(s: State, t: nat): (s': State)
    requires Inv(s) && (t < |s.tcb| ==> t != s.run && !TimedOut(s, t))
    ensures t < |s.tcb| ==> WaitsKept(s, s', {t}, {s.link[t]})
    ensures t >= |s.tcb| ==> s' == s
    ensures Inv(s')
    ensures t < |s.tcb| && FIRST_WAIT <= s.link[t] ==> s'.lists[s.link[t]] in {s.lists[s.link[t]], Without(s.lists[s.link[t]], t)}
  {
    NothingKept(s);
    if DeleteRet(s, t) != Ok then s
    else
      DiscardOk(s, t);
      DiscardKept(s, t);
      Discard(s, t)
  }

  function CreateRet(s: State, prio: nat, idleEntry: bool, memory: bool): Ret
    requires s.Shape()
  {
    if prio >= PRIORITIES || (prio == PRIORITIES - 1 && !idleEntry) then PriorError
    else if s.lists[FREE] == [] then TcbUnavailable
    else if !memory then NoMemory
    else Ok
  }

  const READY: Status := Status(false, false, true, false, false, false, false, false)

  function Admit(s: State, t: nat, prio: nat): State
    requires s.Shape() && t < |s.tcb| && 0 <= s.link[t] < |s.lists| && prio < |s.lists|
  {
    var s1 := Unlink(s, t);
    Append(s1.(tcb := s1.tcb[t := Tcb(READY, prio)]), prio, t)
  }

  lemma AdmitOk(s: State, t: nat, prio: nat)
    requires Inv(s) && t < |s.tcb| && s.link[t] == FREE && prio < PRIORITIES
    ensures Base(Admit(s, t, prio)) && t != s.run && t != s.idle
    ensures WaitsKept(s, Admit(s, t, prio), {t}, {FREE})
  {
    hide Without;
    assert TaskOk(s, t) && TaskOk(s, s.run) && TaskOk(s, s.idle);
    UnlinkLinks(s, t);
    AppendLinks(Unlink(s, t), prio, t);
    OneTaskStep(s, Admit(s, t, prio), t);
  }

  /** LOS_TaskCreate; `memory` says whether the stack could be allocated. */
  ghost function Create(s: State, prio: nat, idleEntry: bool, memory: bool): (s': State)
    requires Inv(s)
    ensures Inv(s')
    ensures CreateRet(s, prio, idleEntry, memory) != Ok ==> s' == s
    ensures CreateRet(s, prio, idleEntry, memory) == Ok ==> WaitsKept(s, s', {s.lists[FREE][0]}, {FREE})
    ensures CreateRet(s, prio, idleEntry, memory) == Ok && s.lock == 0 ==> HeadsBest(s', s'.run)
  {
    if CreateRet(s, prio, idleEntry, memory) != Ok then s
    else
      var t := s.lists[FREE][0];
      assert t in s.lists[FREE] && ListOk(s.lists[FREE], FREE, s.link);
      AdmitOk(s, t, prio);
      var s1 := Admit(s, t, prio);
      assert SameWait(s, s1, s.run);
      KeptThenKept(s, s1, Reschedule(s1), {t}, {FREE});
      Reschedule(s1)
  }

  lemma CreateSteps(s: State, prio: nat, idleEntry: bool)
    requires Inv(s) && CreateRet(s, prio, idleEntry, true) == Ok
    ensures var t := s.lists[FREE][0];
      && t < |s.tcb| && s.link[t] == FREE
      && InvBeforeSchedule(Admit(s, t, prio))
      && Create(s, prio, idleEntry, true) == Reschedule(Admit(s, t, prio))
  {
    var t := s.lists[FREE][0];
    assert t in s.lists[FREE] && ListOk(s.lists[FREE], FREE, s.link);
    hide Without, HeadsBest, SomeReady, Schedule;
    AdmitOk(s, t, prio);
    assert SameWait(s, Admit(s, t, prio), s.run);
  }

  // ---------------------------------------------------------------- start

  function FreeBlocks(tasks: nat): (l: seq<nat>)
    requires 0 < tasks
    ensures |l| == tasks - 1 && forall i | 0 <= i < |l| :: l[i] == i + 1
  {
    seq(tasks - 1, i requires 0 <= i => i + 1)
  }

  function InitialList(l: nat, tasks: nat): seq<nat>
    requires 0 < tasks
  {
    if l == PRIORITIES - 1 then [0] else if l == FREE then FreeBlocks(tasks) else []
  }

  function InitialTcb(t: nat): Tcb {
    if t == 0 then Tcb(READY.(running := true), PRIORITIES - 1) else Tcb(UNUSED, 0)
  }

  /** The kernel once the idle task runs: it took the first control block, the
      others are free. */
  function Initial(tasks: nat, waitLists: nat, swtmr: nat): State
    requires 0 < tasks
  {
    State(seq(tasks, t requires 0 <= t => InitialTcb(t)),
          seq(FIRST_WAIT + waitLists, l requires 0 <= l => InitialList(l, tasks)),
          seq(tasks, t => if t == 0 then PRIORITIES - 1 else FREE),
          map[], 0, 0, 0, swtmr)
  }

  lemma InitialOk(tasks: nat, waitLists: nat, swtmr: nat)
    requires 0 < tasks
    ensures Inv(Initial(tasks, waitLists, swtmr))
  {
    var s := Initial(tasks, waitLists, swtmr);
    assert s.lists[PRIORITIES - 1][0] == 0;
    forall t | 0 < t < tasks ensures t in s.lists[FREE] {
      assert s.lists[FREE][t - 1] == t;
    }
    forall l | 0 <= l < |s.lists| ensures ListOk(s.lists[l], l, s.link) {
    }
    forall t | 0 <= t < |s.tcb| ensures TaskOk(s, t) {
    }
  }

  // ---------------------------------------------------------------- all steps

  /** One atomic step of the kernel, with the arguments it was called with. */
  datatype Op =
    | OpBlock(list: nat, queue: bool, timeout: nat)
    | OpGrant(task: nat, queue: bool)
    | OpSchedule
    | OpTick(released: seq<nat>)
    | OpSetPrio(task: nat, prio: nat)
    | OpPriSet(task: nat, prio: nat)
    | OpSuspend(task: nat)
    | OpResume(task: nat)
    | OpYield
    | OpDelay(ticks: nat)
    | OpLock
    | OpUnlock
    | OpClearTimeout
    | OpDelete(task: nat)
    | OpCreate(prio: nat, idleEntry: bool, memory: bool)

  /** What the code in front of a step has checked, or what its callers owe it. */
  ghost predicate Enabled(s: State, op: Op)
    requires s.Shape()
  {
    match op
    case OpBlock(l, queue, timeout) =>
      s.lock == 0 && s.run != s.idle && !s.St(s.run).timeout && FIRST_WAIT <= l < |s.lists| && 0 < timeout
    case OpGrant(t, queue) => t < |s.tcb| && (if queue then s.St(t).pendQueue else s.St(t).pend)
    case OpTick(released) => Wheel.Expiring(s.wheel, released)
    case OpSetPrio(t, prio) => t < |s.tcb| && prio < PRIORITIES
    case OpDelay(ticks) => s.run != s.idle && !s.St(s.run).timeout
    case OpDelete(t) => t < |s.tcb| ==> t != s.run && !TimedOut(s, t)
    case _ => true
  }

  ghost function Apply(s: State, op: Op): (s': State)
    requires Inv(s) && Enabled(s, op)
    ensures Inv(s')
  {
    match op
    case OpBlock(l, queue, timeout) => Block(s, l, queue, timeout)
    case OpGrant(t, queue) => Grant(s, t, queue)
    case OpSchedule => Reschedule(s)
    case OpTick(released) => Scan(s, released)
    case OpSetPrio(t, prio) => SetPrio(s, t, prio)
    case OpPriSet(t, prio) => PriSet(s, t, prio)
    case OpSuspend(t) => Suspend(s, t)
    case OpResume(t) => Resume(s, t)
    case OpYield => Yield(s)
    case OpDelay(ticks) => Delay(s, ticks)
    case OpLock => (LockFrame(s, LockStep(s).lock); LockStep(s))
    case OpUnlock => Unlock(s)
    case OpClearTimeout => ClearTimeout(s)
    case OpDelete(t) => Delete(s, t)
    case OpCreate(prio, idleEntry, memory) => Create(s, prio, idleEntry, memory)
  }

  /** `states` is a run of the kernel that performs `ops`. */
  ghost predicate IsRun(states: seq<State>, ops: seq<Op>) {
    && |states| == |ops| + 1
    && Inv(states[0])
    && forall i | 0 <= i < |ops| :: StepTo(states[i], ops[i], states[i + 1])
  }

  ghost predicate StepTo(s: State, op: Op, s': State) {
    Inv(s) && Enabled(s, op) && s' == Apply(s, op)
  }

  /** The structural invariant holds in every state of every run. */
  lemma {:induction false} RunKeepsInv(states: seq<State>, ops: seq<Op>)
    requires IsRun(states, ops)
    ensures forall i | 0 <= i < |states| :: Inv(states[i])
  {
    forall i | 0 <= i < |states| ensures Inv(states[i]) {
      if i > 0 {
        assert StepTo(states[i - 1], ops[i - 1], states[i - 1 + 1]);
      }
    }
  }

  /** The steps whose code reaches LOS_Schedule (or osSchedule). */
  ghost predicate ReachesSchedule(s: State, op: Op)
    requires Inv(s) && Enabled(s, op)
  {
    assert s.tcb[s.run].prio < PRIORITIES by { assert TaskOk(s, s.run); }
    match op
    case OpBlock(_, _, _) => true
    case OpSchedule => true
    case OpTick(released) => NeedSchedule(s, released)
    case OpPriSet(t, prio) => PriSetRet(s, t, prio) == Ok && s.St(t).ready
    case OpSuspend(t) => SuspendRet(s, t) == Ok && t == s.run
    case OpResume(t) => ResumeRet(s, t) == Ok && !Blocked(s.St(t))
    case OpYield => YieldRet(s) == Ok
    case OpDelay(ticks) => DelayRet(s, ticks) == Ok
    case OpUnlock => s.lock == 1
    case OpCreate(prio, idleEntry, memory) => CreateRet(s, prio, idleEntry, memory) == Ok
    case _ => false
  }

  /** At every scheduling point outside a scheduler lock, the running task heads the
      best non-empty ready list. */
  lemma SchedulingPoint(s: State, op: Op)
    requires Inv(s) && Enabled(s, op) && ReachesSchedule(s, op)
    requires s.lock == 0 || op == OpUnlock
    ensures HeadsBest(Apply(s, op), Apply(s, op).run)
  {
    hide Block, Grant, Scan, Reschedule, Suspend, Resume, Yield, Delay, PriSet, Unlock, Create, HeadsBest, WaitsKept, Without;
  }

  // ---------------------------------------------------------------- outcome of a wait

  datatype Outcome = Waiting | Granted | Expired

  function Ticks(ops: seq<Op>): nat {
    if ops == [] then 0 else Ticks(ops[..|ops| - 1]) + if ops[|ops| - 1].OpTick? then 1 else 0
  }

  /** The outcome of task `t`'s wait with timeout `limit` after `ops`: the first of
      being woken and of the `limit`-th tick decides, and nothing changes it later. */
  function OutcomeOf(ops: seq<Op>, t: nat, limit: nat): Outcome {
    if ops == [] then Waiting
    else
      var last := ops[|ops| - 1];
      match OutcomeOf(ops[..|ops| - 1], t, limit)
      case Granted => Granted
      case Expired => Expired
      case Waiting =>
        if last.OpGrant? && last.task == t then Granted
        else if last.OpTick? && limit != WAIT_FOREVER && Ticks(ops) == limit then Expired
        else Waiting
  }

  /** Steps that are calls made by `t` itself, or delete or recreate it. */
  ghost predicate Interferes(s: State, op: Op, t: nat)
    requires s.Shape()
  {
    || (op.OpBlock? && s.run == t)
    || (op.OpDelay? && s.run == t)
    || (op.OpClearTimeout? && s.run == t)
    || (op.OpDelete? && op.task == t)
  }

  /** What the state shows of a wait of `t` in list `l` with a given outcome: still
      waiting means linked in `l` and `left` ticks on the wheel; granted means TIMEOUT
      clear; expired means TIMEOUT set.  Only a waiting task is on the wheel. */
  ghost predicate Shows(s: State, t: nat, l: int, queue: bool, limit: nat, done: nat, o: Outcome) {
    match o
    case Waiting =>
      if limit == WAIT_FOREVER then WaitsIn(s, t, l, queue, WAIT_FOREVER)
      else
        && done < limit && t in s.wheel && s.wheel[t] == limit - done
        && t < |s.tcb| == |s.link| && s.link[t] == l
        && (var st := s.tcb[t].st; st.pend == !queue && st.pendQueue == queue && st.timeout && !st.delay && !st.unused)
    case Granted => NotWaiting(s, t)
    case Expired =>
      && t < |s.tcb| && t !in s.wheel
      && (var st := s.tcb[t].st; !st.pend && !st.pendQueue && st.timeout && !st.delay && !st.unused)
  }

  lemma ShowsKept(s: State, s': State, t: nat, l: int, queue: bool, limit: nat, done: nat, o: Outcome)
    requires Shows(s, t, l, queue, limit, done, o) && SameWait(s, s', t)
    ensures Shows(s', t, l, queue, limit, done, o)
  {
  }

  /** Every step but a wake-up of `t` or a tick leaves `t`'s wait as it is. */
  lemma OtherStepKept(s: State, op: Op, t: nat)
    requires Inv(s) && Enabled(s, op) && t < |s.tcb| && !s.St(t).unused
    requires !Interferes(s, op, t) && !op.OpTick? && !(op.OpGrant? && op.task == t)
    ensures SameWait(s, Apply(s, op), t)
  {
    hide Block, Grant, Scan, Reschedule, Suspend, Resume, Yield, Delay, PriSet, SetPrio, Unlock, Create, Delete, ClearTimeout, HeadsBest, Without;
    assert TaskOk(s, t);
    if op.OpLock? {
      LockFrame(s, LockStep(s).lock);
    }
    if op.OpCreate? && CreateRet(s, op.prio, op.idleEntry, op.memory) == Ok {
      assert s.lists[FREE][0] in s.lists[FREE] && ListOk(s.lists[FREE], FREE, s.link);
    }
  }

  /** One step moves `t`'s wait from one outcome to the next. */
  lemma OutcomeStep(s: State, op: Op, s': State, t: nat, l: int, queue: bool, limit: nat, done: nat, o: Outcome, o': Outcome)
    requires StepTo(s, op, s') && Shows(s, t, l, queue, limit, done, o) && !Interferes(s, op, t)
    requires o' == if !o.Waiting? then o
                   else if op.OpGrant? && op.task == t then Granted
                   else if op.OpTick? && limit != WAIT_FOREVER && done + 1 == limit then Expired
                   else Waiting
    ensures Shows(s', t, l, queue, limit, if op.OpTick? then done + 1 else done, o')
  {
    assert TaskOk(s, t);
    if op.OpTick? {
      TickStep(s, op.released, s', t, l, queue, limit, done, o, o');
    } else if op.OpGrant? && op.task == t {
      assert o.Waiting?;
    } else {
      OtherStepKept(s, op, t);
      ShowsKept(s, s', t, l, queue, limit, done, o);
    }
  }

  lemma TickStep(s: State, released: seq<nat>, s': State, t: nat, l: int, queue: bool, limit: nat, done: nat, o: Outcome, o': Outcome)
    requires Inv(s) && Wheel.Expiring(s.wheel, released) && s' == Scan(s, released)
    requires Shows(s, t, l, queue, limit, done, o)
    requires o' == if o.Waiting? && limit != WAIT_FOREVER && done + 1 == limit then Expired else o
    ensures Shows(s', t, l, queue, limit, done + 1, o')
  {
    hide Scan;
    ScanEffect(s, released);
    assert t in released <==> t in s.wheel && s.wheel[t] <= 1;
    if t in released {
      assert Released(s, s', t);
    } else {
      assert SameWait(s.(wheel := Wheel.TickDown(s.wheel)), s', t);
    }
  }

  lemma WaitBegins(s: State, t: nat, l: nat, queue: bool, limit: nat)
    requires WaitsIn(s, t, l, queue, limit) && 0 < limit
    ensures Shows(s, t, l, queue, limit, 0, Waiting)
  {
  }

  /** Every blocking wait has exactly one outcome.  Over any run that starts with
      task `t` blocking, the state shows the outcome that `OutcomeOf` reads off the
      steps; in particular a finite wait still waits before its `limit`-th tick, and
      the woken call finds TIMEOUT set exactly when `t` was never woken. */
  lemma {:induction false} WaitOutcome(states: seq<State>, ops: seq<Op>, t: nat, l: nat, queue: bool, limit: nat)
    requires IsRun(states, ops)
    requires WaitsIn(states[0], t, l, queue, limit) && 0 < limit
    requires forall i | 0 <= i < |ops| :: Inv(states[i]) && !Interferes(states[i], ops[i], t)
    ensures Shows(states[|ops|], t, l, queue, limit, Ticks(ops), OutcomeOf(ops, t, limit))
  {
    hide Shows, Inv, Interferes, Apply, Enabled;
    if ops == [] {
      WaitBegins(states[0], t, l, queue, limit);
    } else {
      var n := |ops| - 1;
      assert IsRun(states[..n + 1], ops[..n]) by {
        forall i | 0 <= i < n ensures StepTo(states[..n + 1][i], ops[..n][i], states[..n + 1][i + 1]) {
          assert StepTo(states[i], ops[i], states[i + 1]);
        }
      }
      WaitOutcome(states[..n + 1], ops[..n], t, l, queue, limit);
      assert StepTo(states[n], ops[n], states[n + 1]);
      OutcomeStep(states[n], ops[n], states[n + 1], t, l, queue, limit, Ticks(ops[..n]), OutcomeOf(ops[..n], t, limit), OutcomeOf(ops, t, limit));
    }
  }

  /** The outcome in terms of the steps: it is a timeout exactly when `limit` ticks
      have passed and `t` was not woken before the `limit`-th. */
  lemma {:induction false} OutcomeMeans(ops: seq<Op>, t: nat, limit: nat)
    requires 0 < limit
    ensures OutcomeOf(ops, t, limit).Granted? <==>
              exists j | 0 <= j < |ops| :: ops[j].OpGrant? && ops[j].task == t && (limit == WAIT_FOREVER || Ticks(ops[..j]) < limit)
    ensures OutcomeOf(ops, t, limit).Expired? <==>
              && limit != WAIT_FOREVER && limit <= Ticks(ops)
              && !exists j | 0 <= j < |ops| :: ops[j].OpGrant? && ops[j].task == t && Ticks(ops[..j]) < limit
  {
    if ops != [] {
      var n := |ops| - 1;
      var prev := ops[..n];
      OutcomeMeans(prev, t, limit);
      assert forall j | 0 <= j < n :: prev[j] == ops[j] && prev[..j] == ops[..j];
      assert ops[..n] == prev;
    }
  }

  // ---------------------------------------------------------------- wait lists seen from outside

  /** How a wait list of an IPC object can change: by its own calls (the running task
      appended, a waiter woken), or by losing waiters that the tick ended or that
      were deleted.  No other kernel step touches it, so an object's protocol may be
      studied with the steps "append", "wake" and "lose a waiter" alone. */
  lemma WaitListSteps(s: State, op: Op, l: nat)
    requires Inv(s) && Enabled(s, op) && FIRST_WAIT <= l < |s.lists|
    ensures |Apply(s, op).lists| == |s.lists|
    ensures var before, after := s.lists[l], Apply(s, op).lists[l];
      match op
      case OpBlock(k, _, _) => after == if k == l then before + [s.run] else before
      case OpGrant(t, _) => after == if s.link[t] == l then Without(before, t) else before
      case OpTick(released) => after == Minus(before, set t | t in released)
      case OpDelete(t) => after == before || (t < |s.tcb| && s.link[t] == l && after == Without(before, t))
      case _ => after == before
  {
    hide Block, Grant, Scan, Reschedule, Suspend, Resume, Yield, Delay, PriSet, SetPrio, Unlock, Create, Delete, ClearTimeout, HeadsBest, Without, Minus, SameWait;
    if op.OpLock? {
      LockFrame(s, LockStep(s).lock);
    }
    if op.OpTick? {
      ScanEffect(s, op.released);
    }
  }
}
