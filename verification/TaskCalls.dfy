/** What each task call does to the lists, the wheel and the task it names, and which
    calls undo each other.  `Kernel` shows that the calls keep the invariant. */
module TaskCalls {
  import opened Tasks
  import opened Kernel

  /** A status apart from which task runs. */
  function Still(st: Status): Status {
    st.(running := false)
  }

  /** Priorities and states of all tasks but `t` are as before; only the processor may
      have changed hands. */
  ghost predicate Others(s: State, s': State, t: nat) {
    && |s'.tcb| == |s.tcb|
    && forall x | 0 <= x < |s.tcb| && x != t :: s'.tcb[x].prio == s.tcb[x].prio && Still(s'.tcb[x].st) == Still(s.tcb[x].st)
  }

  ghost predicate Becomes(s': State, t: nat, st: Status, prio: nat) {
    t < |s'.tcb| && Still(s'.tcb[t].st) == Still(st) && s'.tcb[t].prio == prio
  }

  /** Lists `a` and `b` now hold `la` and `lb`, the others are as before. */
  ghost predicate ListsAre(s: State, s': State, a: int, la: seq<nat>, b: int, lb: seq<nat>) {
    && |s'.lists| == |s.lists|
    && forall l | 0 <= l < |s.lists| :: s'.lists[l] == if l == a then la else if l == b then lb else s.lists[l]
  }

  const NONE: int := -1

  /** Scheduling moves nothing but the processor. */
  lemma ScheduleMoves(s: State)
    requires InvBeforeSchedule(s)
    ensures var s' := Reschedule(s);
      && s'.lists == s.lists && s'.link == s.link && s'.wheel == s.wheel && |s'.tcb| == |s.tcb|
      && forall x | 0 <= x < |s.tcb| :: s'.tcb[x].prio == s.tcb[x].prio && Still(s'.tcb[x].st) == Still(s.tcb[x].st)
  {
    ScheduleOk(s);
  }

  lemma Rescheduled(s: State, s1: State, t: nat, st: Status, prio: nat)
    requires InvBeforeSchedule(s1) && Becomes(s1, t, st, prio) && Others(s, s1, t)
    ensures var s' := Reschedule(s1);
      && Becomes(s', t, st, prio) && Others(s, s', t)
      && s'.lists == s1.lists && s'.link == s1.link && s'.wheel == s1.wheel
  {
    hide InvBeforeSchedule, Still;
    ScheduleMoves(s1);
  }

  lemma MarkingDoes(s: State, t: nat)
    requires s.Shape() && t < |s.tcb| && (s.St(t).ready ==> 0 <= s.link[t] < |s.lists|)
    ensures var s', l := MarkSuspended(s, t), s.link[t];
      && Becomes(s', t, s.St(t).(suspend := true, ready := false), s.tcb[t].prio) && Others(s, s', t)
      && s'.wheel == s.wheel
      && (if s.St(t).ready then ListsAre(s, s', l, Without(s.lists[l], t), NONE, [])
          else s'.lists == s.lists && s'.link == s.link)
  {
    hide Without;
  }

  /** LOS_TaskSuspend: the task is marked and leaves the ready queue; a wait or delay
      goes on. */
  lemma SuspendDoes(s: State, t: nat)
    requires Inv(s) && SuspendRet(s, t) == Ok
    ensures var s', l := Suspend(s, t), s.link[t];
      && Becomes(s', t, s.St(t).(suspend := true, ready := false), s.tcb[t].prio) && Others(s, s', t)
      && s'.wheel == s.wheel
      && (if s.St(t).ready then 0 <= l < |s.lists| && ListsAre(s, s', l, Without(s.lists[l], t), NONE, [])
          else s'.lists == s.lists && s'.link == s.link)
  {
    InvTask(s, t);
    InvTask(s, s.run);
    hide TaskOk, LinksOk, HeadsBest, Without, Others, Becomes, WaitsKept, SomeReady, MarkSuspended, Schedule;
    MarkSuspendedOk(s, t);
    MarkingDoes(s, t);
    if t == s.run {
      Rescheduled(s, MarkSuspended(s, t), t, s.St(t).(suspend := true, ready := false), s.tcb[t].prio);
    }
  }

  lemma UnmarkingDoes(s: State, t: nat)
    requires s.Shape() && t < |s.tcb| && s.tcb[t].prio < |s.lists|
    ensures var s', p := Unsuspend(s, t), s.tcb[t].prio;
      && Becomes(s', t, s.St(t).(suspend := false, ready := s.St(t).ready || !Blocked(s.St(t))), p) && Others(s, s', t)
      && s'.wheel == s.wheel
      && (if Blocked(s.St(t)) then s'.lists == s.lists && s'.link == s.link
          else ListsAre(s, s', p, s.lists[p] + [t], NONE, []))
  {
  }

  /** LOS_TaskResume: the mark goes; a task that is not blocked joins the end of the
      ready list of its priority. */
  lemma ResumeDoes(s: State, t: nat)
    requires Inv(s) && ResumeRet(s, t) == Ok
    ensures var s', p := Resume(s, t), s.tcb[t].prio;
      && p < |s.lists|
      && Becomes(s', t, s.St(t).(suspend := false, ready := !Blocked(s.St(t))), p) && Others(s, s', t)
      && s'.wheel == s.wheel
      && (if Blocked(s.St(t)) then s'.lists == s.lists && s'.link == s.link
          else ListsAre(s, s', p, s.lists[p] + [t], NONE, []))
  {
    InvTask(s, t);
    InvTask(s, s.run);
    hide LinksOk, HeadsBest, Others, Becomes, WaitsKept, SomeReady, Unsuspend, Schedule;
    UnsuspendOk(s, t);
    UnmarkingDoes(s, t);
    if !Blocked(s.St(t)) {
      Rescheduled(s, Unsuspend(s, t), t, s.St(t).(suspend := false, ready := true), s.tcb[t].prio);
    }
  }

  /** Resuming undoes a suspension: of a task that waits or is delayed, entirely; a
      ready task has lost its place among the tasks of its priority. */
  lemma ResumeUndoesSuspend(s: State, t: nat)
    requires Inv(s) && SuspendRet(s, t) == Ok
    ensures ResumeRet(Suspend(s, t), t) == Ok
    ensures var s', p := Resume(Suspend(s, t), t), s.tcb[t].prio;
      && p < |s.lists|
      && Becomes(s', t, s.St(t), p) && Others(s, s', t) && s'.wheel == s.wheel
      && (if s.St(t).ready then ListsAre(s, s', p, Without(s.lists[p], t) + [t], NONE, [])
          else s'.lists == s.lists && s'.link == s.link)
  {
    hide Suspend, Resume, Without, Base, WaitsKept, HeadsBest;
    InvTask(s, t);
    SuspendDoes(s, t);
    var s1 := Suspend(s, t);
    InvTask(s1, t);
    ResumeDoes(s1, t);
  }

  lemma InvTask(s: State, t: nat)
    requires Inv(s) && t < |s.tcb|
    ensures s.Shape() && TaskOk(s, t)
  {
  }

  /** LOS_TaskYield: with others of its priority ready, the task goes to the end. */
  lemma YieldDoes(s: State)
    requires Inv(s)
    ensures s.tcb[s.run].prio < |s.lists|
    ensures var s', p := Yield(s), s.tcb[s.run].prio;
      if |s.lists[p]| <= 1 then s' == s
      else Others(s, s', |s.tcb|) && s'.wheel == s.wheel && ListsAre(s, s', p, Without(s.lists[p], s.run) + [s.run], NONE, [])
  {
    hide Without;
    RotateOk(s);
    hide TaskOk, LinksOk, HeadsBest;
    if |s.lists[s.tcb[s.run].prio]| > 1 {
      ScheduleMoves(Rotate(s));
    }
  }

  lemma SleepDoes(s: State, ticks: nat)
    requires s.Shape() && 0 <= s.link[s.run] < |s.lists|
    ensures var s', t, l := Sleep(s, ticks), s.run, s.link[s.run];
      && Becomes(s', t, s.St(t).(ready := false, delay := true), s.tcb[t].prio) && Others(s, s', t)
      && s'.wheel == s.wheel[t := ticks] && ListsAre(s, s', l, Without(s.lists[l], t), NONE, [])
  {
    hide Without;
  }

  /** LOS_TaskDelay by a positive number of ticks. */
  lemma DelayDoes(s: State, ticks: nat)
    requires Inv(s) && s.run != s.idle && !s.St(s.run).timeout && s.lock == 0 && 0 < ticks
    ensures var s', t, p := Delay(s, ticks), s.run, s.tcb[s.run].prio;
      && p < |s.lists|
      && Becomes(s', t, s.St(t).(ready := false, delay := true), p) && Others(s, s', t)
      && s'.wheel == s.wheel[t := ticks] && ListsAre(s, s', p, Without(s.lists[p], t), NONE, [])
  {
    hide TaskOk, ListOk, HeadsBest, Without, Others, Becomes, WaitsKept, SomeReady, Sleep, Schedule, Rotate;
    SleepOk(s, ticks);
    SleepDoes(s, ticks);
    Rescheduled(s, Sleep(s, ticks), s.run, s.St(s.run).(ready := false, delay := true), s.tcb[s.run].prio);
  }

  /** osTaskWake: the task leaves its wait list and the wheel, its TIMEOUT is cleared,
      and unless suspended it joins the end of the ready list of its priority. */
  lemma GrantDoes(s: State, t: nat, queue: bool)
    requires Inv(s) && t < |s.tcb| && (if queue then s.St(t).pendQueue else s.St(t).pend)
    ensures var s', l, p := Grant(s, t, queue), s.link[t], s.tcb[t].prio;
      && 0 <= l < |s.lists| && p < |s.lists|
      && Becomes(s', t, s.St(t).(pend := false, pendQueue := false, timeout := false, ready := !s.St(t).suspend), p)
      && Others(s, s', t) && s'.wheel == s.wheel - {t} && s'.run == s.run
      && (if s.St(t).suspend then ListsAre(s, s', l, Without(s.lists[l], t), NONE, [])
          else ListsAre(s, s', l, Without(s.lists[l], t), p, s.lists[p] + [t]))
  {
    hide Without, ListOk, TaskOk, Becomes, Others, ListsAre, Wake, WaitsKept, NotWaiting;
    InvTask(s, t);
    WakeOk(s, t, queue);
    WakeDoes(s, t, queue);
  }

  lemma WakeDoes(s: State, t: nat, queue: bool)
    requires s.Shape() && t < |s.tcb| && TaskOk(s, t) && (if queue then s.St(t).pendQueue else s.St(t).pend) && s.link[t] < |s.lists|
    ensures var s', l, p := Wake(s, t, queue), s.link[t], s.tcb[t].prio;
      && Becomes(s', t, s.St(t).(pend := false, pendQueue := false, timeout := false, ready := !s.St(t).suspend), p)
      && Others(s, s', t) && s'.wheel == s.wheel - {t} && s'.run == s.run
      && (if s.St(t).suspend then ListsAre(s, s', l, Without(s.lists[l], t), NONE, [])
          else ListsAre(s, s', l, Without(s.lists[l], t), p, s.lists[p] + [t]))
  {
    hide Without;
  }

  /** What osTaskScan does to a task whose countdown ends: like a wake-up, except that
      the TIMEOUT of a wait stays set for the woken call to find. */
  lemma ExpiryDoes(s: State, t: nat)
    requires Base(s) && t in s.wheel
    ensures t < |s.tcb| && s.tcb[t].prio < |s.lists| && (s.St(t).pend || s.St(t).pendQueue ==> 0 <= s.link[t] < |s.lists|)
    ensures s.tcb[t].prio < PRIORITIES
    ensures var s', l, p, st := Expire(s, t), s.link[t], s.tcb[t].prio, s.St(t);
      && Becomes(s', t, st.(pend := false, pendQueue := false, delay := false, ready := !st.suspend), p)
      && Others(s, s', t) && s'.wheel == s.wheel - {t}
      && ListsAre(s, s', if st.delay then NONE else l, if st.delay || l < 0 then [] else Without(s.lists[l], t),
                  if st.suspend then NONE else p, s.lists[p] + [t])
  {
    hide Without, ListOk;
    assert TaskOk(s, t);
    ExpireOk(s, t);
  }

  /** osTaskPriModify: a ready task goes to the end of the list of its new priority,
      also when that is its old one. */
  lemma SetPrioDoes(s: State, t: nat, prio: nat)
    requires Inv(s) && t < |s.tcb| && prio < PRIORITIES
    ensures var s', p := SetPrio(s, t, prio), s.tcb[t].prio;
      && p < |s.lists|
      && Becomes(s', t, s.St(t), prio) && Others(s, s', t) && s'.wheel == s.wheel
      && (if !s.St(t).ready then s'.lists == s.lists && s'.link == s.link
          else if p == prio then ListsAre(s, s', p, Without(s.lists[p], t) + [t], NONE, [])
          else ListsAre(s, s', p, Without(s.lists[p], t), prio, s.lists[prio] + [t]))
  {
    InvTask(s, t);
    hide Inv, Without, TaskOk, Becomes, Others, ListsAre, WaitsKept, PriModify;
    RelinkDoes(s, t, prio);
  }

  lemma RelinkDoes(s: State, t: nat, prio: nat)
    requires s.Shape() && t < |s.tcb| && TaskOk(s, t) && prio < PRIORITIES
    ensures var s', p := PriModify(s, t, prio), s.tcb[t].prio;
      && p < |s.lists|
      && Becomes(s', t, s.St(t), prio) && Others(s, s', t) && s'.wheel == s.wheel
      && (if !s.St(t).ready then s'.lists == s.lists && s'.link == s.link
          else if p == prio then ListsAre(s, s', p, Without(s.lists[p], t) + [t], NONE, [])
          else ListsAre(s, s', p, Without(s.lists[p], t), prio, s.lists[prio] + [t]))
  {
    hide Without;
  }

  lemma DiscardDoes(s: State, t: nat)
    requires s.Shape() && t < |s.tcb| && TaskOk(s, t) && !s.St(t).unused && !TimedOut(s, t) && s.link[t] < |s.lists|
    requires s.St(t).ready || s.St(t).pend || s.St(t).pendQueue ==> 0 <= s.link[t]
    ensures var s', l := Discard(s, t), s.link[t];
      && Becomes(s', t, UNUSED, s.tcb[t].prio) && Others(s, s', t) && s'.wheel == s.wheel - {t} && l != FREE
      && ListsAre(s, s', FREE, [t] + s.lists[FREE], l, if 0 <= l then Without(s.lists[l], t) else [])
  {
    hide Without;
  }

  /** LOS_TaskDelete: the control block is unused again and comes first in the free
      list; the task is in no other list and not on the wheel. */
  lemma DeleteDoes(s: State, t: nat)
    requires Inv(s) && DeleteRet(s, t) == Ok && t != s.run && !TimedOut(s, t)
    ensures var s', l := Delete(s, t), s.link[t];
      && Becomes(s', t, UNUSED, s.tcb[t].prio) && Others(s, s', t) && s'.wheel == s.wheel - {t} && l < |s.lists| && l != FREE
      && ListsAre(s, s', FREE, [t] + s.lists[FREE], l, if 0 <= l then Without(s.lists[l], t) else [])
  {
    hide Without, ListOk, TaskOk, Becomes, Others, ListsAre, Discard, WaitsKept;
    InvTask(s, t);
    DiscardOk(s, t);
    DiscardDoes(s, t);
  }

  lemma AdmitDoes(s: State, t: nat, prio: nat)
    requires s.Shape() && t < |s.tcb| && s.link[t] == FREE && prio < PRIORITIES && s.lists[FREE] != [] && s.lists[FREE][0] == t
    ensures var s' := Admit(s, t, prio);
      && Becomes(s', t, READY, prio) && Others(s, s', t) && s'.wheel == s.wheel
      && ListsAre(s, s', FREE, s.lists[FREE][1..], prio, s.lists[prio] + [t])
  {
  }

  /** LOS_TaskCreate: the first free control block becomes a ready task, last among
      those of its priority. */
  lemma CreateDoes(s: State, prio: nat, idleEntry: bool)
    requires Inv(s) && CreateRet(s, prio, idleEntry, true) == Ok
    ensures var s', t := Create(s, prio, idleEntry, true), s.lists[FREE][0];
      && Becomes(s', t, READY, prio) && Others(s, s', t) && s'.wheel == s.wheel
      && ListsAre(s, s', FREE, s.lists[FREE][1..], prio, s.lists[prio] + [t])
  {
    var t := s.lists[FREE][0];
    assert t in s.lists[FREE] && ListOk(s.lists[FREE], FREE, s.link);
    CreateSteps(s, prio, idleEntry);
    hide Create, LinksOk, TaskOk, HeadsBest, Others, Becomes, ListsAre, WaitsKept, Admit, Schedule;
    AdmitDoes(s, t, prio);
    Rescheduled(s, Admit(s, t, prio), t, READY, prio);
    SameListsAre(s, Admit(s, t, prio), Create(s, prio, idleEntry, true), FREE, s.lists[FREE][1..], prio, s.lists[prio] + [t]);
  }

  lemma SameListsAre(s: State, s1: State, s': State, a: int, la: seq<nat>, b: int, lb: seq<nat>)
    requires ListsAre(s, s1, a, la, b, lb) && s'.lists == s1.lists
    ensures ListsAre(s, s', a, la, b, lb)
  {
  }

  lemma {:induction false} WithoutLast(l: seq<nat>, t: nat)
    requires t !in l
    ensures Without(l + [t], t) == l
  {
    if l == [] {
      assert Without([t], t) == [];
    } else {
      WithoutLast(l[1..], t);
      assert l == [l[0]] + l[1..] && (l + [t])[1..] == l[1..] + [t];
    }
  }

  /** Deleting a task that has just been created and did not preempt its creator
      leaves every list and the wheel as they were. */
  lemma DeleteUndoesCreate(s: State, prio: nat, idleEntry: bool)
    requires Inv(s) && CreateRet(s, prio, idleEntry, true) == Ok
    requires var t, s1 := s.lists[FREE][0], Create(s, prio, idleEntry, true);
      t != s1.run && t != s.idle && t != s.swtmr && s1.idle == s.idle && s1.swtmr == s.swtmr
    ensures var t, s1 := s.lists[FREE][0], Create(s, prio, idleEntry, true);
      && DeleteRet(s1, t) == Ok && !TimedOut(s1, t)
      && Delete(s1, t).lists == s.lists && Delete(s1, t).wheel == s.wheel && Others(s, Delete(s1, t), t)
      && Becomes(Delete(s1, t), t, UNUSED, prio)
  {
    var t, s1 := s.lists[FREE][0], Create(s, prio, idleEntry, true);
    assert t in s.lists[FREE] && ListOk(s.lists[FREE], FREE, s.link) && ListOk(s.lists[prio], prio, s.link);
    InvTask(s, t);
    CreateDoes(s, prio, idleEntry);
    InvTask(s1, t);
    assert t !in s.wheel && s1.link[t] == prio;
    WithoutLast(s.lists[prio], t);
    hide Create, Without, Inv;
    DeleteDoes(s1, t);
    hide Delete;
    assert [t] + s.lists[FREE][1..] == s.lists[FREE];
    assert Delete(s1, t).lists == s.lists;
    assert Delete(s1, t).wheel == s.wheel;
  }

  // ---------------------------------------------------------------- waiting and waking

  lemma WaitDoes(s: State, l: nat, queue: bool, timeout: nat)
    requires s.Shape() && 0 <= s.link[s.run] < FIRST_WAIT <= l < |s.lists|
    ensures var s', t, p := Wait(s, l, queue, timeout), s.run, s.link[s.run];
      && Becomes(s', t, Waiting(s.St(t), queue, timeout), s.tcb[t].prio) && Others(s, s', t)
      && s'.wheel == (if timeout == WAIT_FOREVER then s.wheel else s.wheel[t := timeout])
      && ListsAre(s, s', p, Without(s.lists[p], t), l, s.lists[l] + [t])
  {
    hide Without;
  }

  /** The status of a task that has begun to wait. */
  function Waiting(st: Status, queue: bool, timeout: nat): Status {
    st.(ready := false, pend := st.pend || !queue, pendQueue := st.pendQueue || queue, timeout := st.timeout || timeout != WAIT_FOREVER)
  }

  lemma BlockDoes(s: State, l: nat, queue: bool, timeout: nat)
    requires Inv(s) && s.lock == 0 && s.run != s.idle && !s.St(s.run).timeout && FIRST_WAIT <= l < |s.lists| && 0 < timeout
    ensures s.tcb[s.run].prio < PRIORITIES && s.link[s.run] == s.tcb[s.run].prio
    ensures var s', t, p := Block(s, l, queue, timeout), s.run, s.tcb[s.run].prio;
      && Becomes(s', t, Waiting(s.St(t), queue, timeout), p) && Others(s, s', t)
      && s'.wheel == (if timeout == WAIT_FOREVER then s.wheel else s.wheel[t := timeout])
      && ListsAre(s, s', p, Without(s.lists[p], t), l, s.lists[l] + [t])
  {
    InvTask(s, s.run);
    hide TaskOk, ListOk, HeadsBest, Without, Others, Becomes, WaitsKept, SomeReady, Wait, Waiting, Schedule, ListsAre;
    WaitOk(s, l, queue, timeout);
    WaitDoes(s, l, queue, timeout);
    var s1 := Wait(s, l, queue, timeout);
    Rescheduled(s, s1, s.run, Waiting(s.St(s.run), queue, timeout), s.tcb[s.run].prio);
    SameListsAre(s, s1, Reschedule(s1), s.tcb[s.run].prio, Without(s.lists[s.tcb[s.run].prio], s.run), l, s.lists[l] + [s.run]);
  }

  lemma ListsBack(s: State, s1: State, s2: State, p: nat, lp: seq<nat>, l: nat, ll: seq<nat>, end: seq<nat>)
    requires p < l < |s.lists| && ListsAre(s, s1, p, lp, l, ll) && ListsAre(s1, s2, l, s.lists[l], p, end)
    ensures ListsAre(s, s2, p, end, NONE, [])
  {
  }

  lemma StatusBack(s: State, s1: State, s2: State, t: nat, queue: bool, timeout: nat)
    requires t < |s.tcb| && s.St(t).ready && !s.St(t).timeout && s.Shape() && TaskOk(s, t)
    requires Becomes(s1, t, Waiting(s.St(t), queue, timeout), s.tcb[t].prio) && Others(s, s1, t) && Others(s1, s2, t)
    requires Becomes(s2, t, s1.St(t).(pend := false, pendQueue := false, timeout := false, ready := !s1.St(t).suspend), s1.tcb[t].prio)
    ensures !s1.St(t).suspend && s1.tcb[t].prio == s.tcb[t].prio
    ensures Becomes(s2, t, s.St(t), s.tcb[t].prio) && Others(s, s2, t)
  {
  }

  lemma InvShape(s: State)
    requires Inv(s)
    ensures s.Shape()
  {
    hide TaskOk, ListOk;
  }

  /** The running task before it blocks. */
  lemma AboutToBlock(s: State, l: nat)
    requires Inv(s) && s.run < |s.tcb| && !s.St(s.run).timeout && FIRST_WAIT <= l < |s.lists|
    ensures s.Shape() && TaskOk(s, s.run) && s.St(s.run).ready && !s.St(s.run).suspend && s.run !in s.wheel
    ensures s.tcb[s.run].prio < FIRST_WAIT && Without(s.lists[l] + [s.run], s.run) == s.lists[l]
  {
    InvTask(s, s.run);
    assert s.run !in s.lists[l] by {
      assert ListOk(s.lists[l], l, s.link);
    }
    WithoutLast(s.lists[l], s.run);
  }

  lemma TwoLists(s: State, s': State, a: nat, la: seq<nat>, b: nat, lb: seq<nat>)
    requires ListsAre(s, s', a, la, b, lb) && a < b < |s.lists|
    ensures |s'.lists| == |s.lists| && s'.lists[a] == la && s'.lists[b] == lb
  {
  }

  /** A wake-up undoes a wait, whatever its timeout: the wait list, the wheel and the
      status are as before the call, and the task is back in its ready list, at the end. */
  lemma WakeUndoesBlock(s: State, l: nat, queue: bool, timeout: nat)
    requires Inv(s) && s.lock == 0 && s.run != s.idle && !s.St(s.run).timeout && FIRST_WAIT <= l < |s.lists| && 0 < timeout
    ensures var s1, t, p := Block(s, l, queue, timeout), s.run, s.tcb[s.run].prio;
      && t < |s1.tcb| && (if queue then s1.St(t).pendQueue else s1.St(t).pend)
      && p < |s.lists|
      && (var s' := Grant(s1, t, queue);
          && Becomes(s', t, s.St(t), p) && Others(s, s', t) && s'.wheel == s.wheel
          && ListsAre(s, s', p, Without(s.lists[p], t) + [t], NONE, []))
  {
    hide Inv, TaskOk, Without, WaitsKept, HeadsBest, ListsAre, Becomes, Others, Waiting, Block, Grant, NotWaiting;
    InvShape(s);
    AboutToBlock(s, l);
    var s1 := Block(s, l, queue, timeout);
    var t, p := s.run, s.tcb[s.run].prio;
    BlockDoes(s, l, queue, timeout);
    TwoLists(s, s1, p, Without(s.lists[p], t), l, s.lists[l] + [t]);
    GrantDoes(s1, t, queue);
    var s2 := Grant(s1, t, queue);
    StatusBack(s, s1, s2, t, queue, timeout);
    ListsBack(s, s1, s2, p, Without(s.lists[p], t), l, s.lists[l] + [t], Without(s.lists[p], t) + [t]);
  }
}
