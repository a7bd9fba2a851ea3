/** Task states and the operations of los_task.c on them, each taken as one atomic
    step (the code between locking and restoring interrupts).

    A control block's `stPendList` node is in at most one list at a time, and the
    same node serves the ready queue, the free list and the wait lists of the IPC
    objects.  So all those lists form one family: list `p < PRIORITIES` is the ready
    list of priority `p`, list `FREE` holds the unused control blocks, and every
    list from `FIRST_WAIT` on is the wait list of some semaphore, mutex, event or
    queue.  `link[t]` is the list the node of task `t` is in. */
module Tasks {
  import Wheel = TaskWheel

  const PRIORITIES: nat := 32
  const FREE: nat := 32
  const FIRST_WAIT: nat := 33
  const UNLINKED: int := -1
  const WAIT_FOREVER: nat := 0xFFFF_FFFF

  /** The bits of `usTaskStatus` that the kernel uses. */
  datatype Status = Status(unused: bool, suspend: bool, ready: bool, pend: bool, running: bool,
                           delay: bool, timeout: bool, pendQueue: bool)

  const UNUSED: Status := Status(true, false, false, false, false, false, false, false)

  datatype Tcb = Tcb(st: Status, prio: nat)

  datatype Ret = Ok | IdInvalid | OperateIdle | OperateSwtmr | NotCreated | NotSuspended | AlreadySuspended
    | SuspendLocked | PriorError | YieldNotEnoughTask | DelayInLock | TcbUnavailable | NoMemory

  datatype State = State(tcb: seq<Tcb>, lists: seq<seq<nat>>, link: seq<int>, wheel: map<nat, nat>,
                         run: nat, lock: nat, idle: nat, swtmr: nat)
  {
    predicate Shape() {
      && |tcb| == |link|
      && FIRST_WAIT <= |lists|
      && run < |tcb|
      && idle < |tcb|
    }

    function St(t: nat): Status
      requires t < |tcb|
    {
      tcb[t].st
    }

    function With(t: nat, st: Status): State
      requires t < |tcb|
    {
      this.(tcb := tcb[t := tcb[t].(st := st)])
    }
  }

  // ---------------------------------------------------------------- lists

  function Without(l: seq<nat>, t: nat): seq<nat> {
    if l == [] then [] else if l[0] == t then l[1..] else [l[0]] + Without(l[1..], t)
  }

  /** LOS_ListDelete on the node of `t`. */
  function Unlink(s: State, t: nat): State
    requires s.Shape() && t < |s.tcb| && 0 <= s.link[t] < |s.lists|
  {
    var l := s.link[t];
    s.(lists := s.lists[l := Without(s.lists[l], t)], link := s.link[t := UNLINKED])
  }

  /** LOS_ListTailInsert of the node of `t`; osPriqueueEnqueue when `l` is a priority. */
  function Append(s: State, l: nat, t: nat): State
    requires s.Shape() && t < |s.tcb| && l < |s.lists|
  {
    s.(lists := s.lists[l := s.lists[l] + [t]], link := s.link[t := l])
  }

  /** LOS_ListAdd of the node of `t`. */
  function Prepend(s: State, l: nat, t: nat): State
    requires s.Shape() && t < |s.tcb| && l < |s.lists|
  {
    s.(lists := s.lists[l := [t] + s.lists[l]], link := s.link[t := l])
  }

  ghost predicate Distinct(l: seq<nat>) {
    forall i, j | 0 <= i < j < |l| :: l[i] != l[j]
  }

  /** The nodes in list number `l` are there once and have their links set to it. */
  ghost predicate ListOk(list: seq<nat>, l: nat, link: seq<int>) {
    && Distinct(list)
    && forall t <- list :: t < |link| && link[t] == l
  }

  /** Every node is in exactly the list its links say, and there once. */
  ghost predicate LinksOk(s: State) {
    && s.Shape()
    && (forall l | 0 <= l < |s.lists| :: ListOk(s.lists[l], l, s.link))
    && (forall t | 0 <= t < |s.link| :: s.link[t] == UNLINKED || (0 <= s.link[t] < |s.lists| && t in s.lists[s.link[t]]))
  }

  lemma {:induction false} WithoutMembers(l: seq<nat>, t: nat)
    requires Distinct(l)
    ensures Distinct(Without(l, t))
    ensures forall x :: x in Without(l, t) <==> x in l && x != t
  {
    if l != [] {
      WithoutMembers(l[1..], t);
      assert l == [l[0]] + l[1..];
      assert l[0] !in l[1..];
    }
  }

  lemma UnlinkLinks(s: State, t: nat)
    requires LinksOk(s) && t < |s.tcb| && s.link[t] != UNLINKED
    ensures LinksOk(Unlink(s, t))
  {
    var s', k := Unlink(s, t), s.link[t];
    assert ListOk(s.lists[k], k, s.link);
    WithoutMembers(s.lists[k], t);
    forall l | 0 <= l < |s'.lists| ensures ListOk(s'.lists[l], l, s'.link) {
      assert ListOk(s.lists[l], l, s.link);
    }
  }

  lemma AppendLinks(s: State, l: nat, t: nat)
    requires LinksOk(s) && t < |s.tcb| && s.link[t] == UNLINKED && l < |s.lists|
    ensures LinksOk(Append(s, l, t))
  {
    var s' := Append(s, l, t);
    forall k | 0 <= k < |s'.lists| ensures ListOk(s'.lists[k], k, s'.link) {
      assert ListOk(s.lists[k], k, s.link);
    }
  }

  lemma PrependLinks(s: State, l: nat, t: nat)
    requires LinksOk(s) && t < |s.tcb| && s.link[t] == UNLINKED && l < |s.lists|
    ensures LinksOk(Prepend(s, l, t))
  {
    var s' := Prepend(s, l, t);
    forall k | 0 <= k < |s'.lists| ensures ListOk(s'.lists[k], k, s'.link) {
      assert ListOk(s.lists[k], k, s.link);
    }
  }

  lemma SameLinks(s: State, s': State)
    requires LinksOk(s) && s'.Shape()
    requires s'.lists == s.lists && s'.link == s.link
    ensures LinksOk(s')
  {
  }

  // ---------------------------------------------------------------- invariant

  /** What the status bits of a task say about where it is:
      READY exactly when it is in the ready list of its priority, PEND or PEND_QUEUE
      exactly when it is in a wait list, and on the wheel exactly when it is DELAYed
      or waiting with a TIMEOUT.  TIMEOUT alone (a wait the scan has ended and the
      task has not yet noticed) does not put it on the wheel. */
  ghost predicate TaskOk(s: State, t: nat)
    requires s.Shape() && t < |s.tcb|
  {
    var st, l := s.tcb[t].st, s.link[t];
    && s.tcb[t].prio < PRIORITIES
    && (st.unused <==> l == FREE)
    && (st.unused ==> st == UNUSED)
    && (st.ready <==> 0 <= l < PRIORITIES)
    && (st.ready ==> l == s.tcb[t].prio)
    && (st.pend || st.pendQueue <==> FIRST_WAIT <= l)
    && !(st.pend && st.pendQueue)
    && (st.ready <==> !(st.unused || st.suspend || st.pend || st.pendQueue || st.delay))
    && (st.delay ==> !st.pend && !st.pendQueue && !st.timeout)
    && (t in s.wheel <==> st.delay || (st.timeout && (st.pend || st.pendQueue)))
    && (st.running <==> t == s.run)
  }

  ghost predicate Base(s: State) {
    && LinksOk(s)
    && (forall t | 0 <= t < |s.tcb| :: TaskOk(s, t))
    && (forall t <- s.wheel :: t < |s.tcb|)
    && s.tcb[s.idle].st.ready
  }

  ghost predicate Positive(wheel: map<nat, nat>) {
    forall t <- wheel :: 0 < wheel[t]
  }

  /** The invariant of every kernel step.  The running task and the idle task can
      always run. */
  ghost predicate Inv(s: State) {
    Base(s) && Positive(s.wheel) && s.tcb[s.run].st.ready
  }

  /** The invariant inside an operation, after the part that may have taken the
      running task off the ready queue.  That never happens with the lock held. */
  ghost predicate InvBeforeSchedule(s: State) {
    Base(s) && Positive(s.wheel) && (s.lock != 0 ==> s.tcb[s.run].st.ready)
  }

  // ---------------------------------------------------------------- scheduling

  /** osPriqueueTop from priority `p` on: the first task of the best non-empty list. */
  function TopFrom(lists: seq<seq<nat>>, p: nat): nat
    requires p <= PRIORITIES <= |lists|
    requires exists q | p <= q < PRIORITIES :: lists[q] != []
    decreases PRIORITIES - p
  {
    if lists[p] != [] then lists[p][0] else TopFrom(lists, p + 1)
  }

  ghost predicate SomeReady(s: State) {
    PRIORITIES <= |s.lists| && exists q | 0 <= q < PRIORITIES :: s.lists[q] != []
  }

  /** The task that should run: the head of the best non-empty ready list. */
  ghost predicate HeadsBest(s: State, t: nat) {
    exists p | 0 <= p < PRIORITIES <= |s.lists| ::
      s.lists[p] != [] && s.lists[p][0] == t && forall q | 0 <= q < p :: s.lists[q] == []
  }

  /** Handing the processor over: osTaskSchedule moves the RUNNING bit. */
  function SwitchTo(s: State, t: nat): State
    requires s.Shape() && t < |s.tcb|
  {
    var s1 := s.With(s.run, s.St(s.run).(running := false));
    s1.With(t, s1.St(t).(running := true)).(run := t)
  }

  /** LOS_Schedule. */
  ghost function Schedule(s: State): State
    requires s.Shape() && SomeReady(s)
  {
    var top := TopFrom(s.lists, 0);
    if top != s.run && s.lock == 0 && top < |s.tcb| then SwitchTo(s, top) else s
  }

  lemma {:induction false} TopHeadsBest(s: State, p: nat)
    requires s.Shape() && p < PRIORITIES
    requires forall q | 0 <= q < p :: s.lists[q] == []
    requires exists q | p <= q < PRIORITIES :: s.lists[q] != []
    ensures HeadsBest(s, TopFrom(s.lists, p))
    decreases PRIORITIES - p
  {
    if s.lists[p] == [] {
      TopHeadsBest(s, p + 1);
    }
  }

  lemma IdleIsReady(s: State)
    requires Base(s)
    ensures SomeReady(s)
  {
    assert TaskOk(s, s.idle);
    assert s.idle in s.lists[s.link[s.idle]];
  }

  lemma TopIsReady(s: State)
    requires Base(s)
    ensures SomeReady(s) && HeadsBest(s, TopFrom(s.lists, 0))
    ensures TopFrom(s.lists, 0) < |s.tcb| && s.tcb[TopFrom(s.lists, 0)].st.ready
  {
    IdleIsReady(s);
    TopHeadsBest(s, 0);
    var top := TopFrom(s.lists, 0);
    var p :| 0 <= p < PRIORITIES && s.lists[p] != [] && s.lists[p][0] == top && forall q | 0 <= q < p :: s.lists[q] == [];
    assert ListOk(s.lists[p], p, s.link) && top in s.lists[p];
    assert TaskOk(s, top);
  }

  lemma SwitchOk(s: State, t: nat)
    requires Base(s) && t < |s.tcb| && s.tcb[t].st.ready
    ensures Base(SwitchTo(s, t))
  {
    hide ListOk;
    var s' := SwitchTo(s, t);
    forall x | 0 <= x < |s'.tcb| ensures TaskOk(s', x) {
      assert TaskOk(s, x);
    }
  }

  /** At a scheduling point with the scheduler unlocked, the running task heads the
      best non-empty ready list. */
  lemma ScheduleOk(s: State)
    requires InvBeforeSchedule(s)
    ensures SomeReady(s) && Inv(Schedule(s))
    ensures s.lock == 0 ==> HeadsBest(Schedule(s), Schedule(s).run)
    ensures Schedule(s).lists == s.lists && Schedule(s).link == s.link && Schedule(s).wheel == s.wheel
  {
    TopIsReady(s);
    SwitchOk(s, TopFrom(s.lists, 0));
    hide Base, TopFrom, HeadsBest;
    SameLists(s, Schedule(s), TopFrom(s.lists, 0));
  }

  lemma SameLists(s: State, s': State, t: nat)
    requires s'.lists == s.lists && HeadsBest(s, t)
    ensures HeadsBest(s', t)
  {
  }

  // ---------------------------------------------------------------- single steps

  /** A step that touches one task keeps the invariant if it keeps it for that task. */
  lemma OneTaskStep(s: State, s': State, t: nat)
    requires Base(s) && t < |s.tcb| && LinksOk(s') && |s'.tcb| == |s.tcb|
    requires s'.run == s.run && s'.idle == s.idle
    requires forall x | 0 <= x < |s.tcb| && x != t :: s'.tcb[x] == s.tcb[x] && s'.link[x] == s.link[x] && (x in s'.wheel <==> x in s.wheel)
    requires s'.wheel.Keys <= s.wheel.Keys + {t}
    requires TaskOk(s', t) && (t == s.idle ==> s'.tcb[t].st.ready)
    ensures Base(s')
  {
    forall x | 0 <= x < |s'.tcb| ensures TaskOk(s', x) {
      assert TaskOk(s, x);
    }
  }

  /** osTaskWait: the running task leaves the ready queue for wait list `l`; a finite
      timeout also puts it on the wheel. */
  function Wait(s: State, l: nat, queue: bool, timeout: nat): State
    requires s.Shape() && 0 <= s.link[s.run] < |s.lists| && l < |s.lists|
  {
    var t := s.run;
    var st := s.St(t).(ready := false, pend := s.St(t).pend || !queue, pendQueue := s.St(t).pendQueue || queue);
    var s1 := Append(Unlink(s, t), l, t);
    if timeout == WAIT_FOREVER then s1.With(t, st)
    else s1.With(t, st.(timeout := true)).(wheel := s.wheel[t := timeout])
  }

  /** Setting READY and osPriqueueEnqueue. */
  function MakeReady(s: State, t: nat): State
    requires s.Shape() && t < |s.tcb| && s.tcb[t].prio < |s.lists|
  {
    Append(s.With(t, s.St(t).(ready := true)), s.tcb[t].prio, t)
  }

  /** The first half of osTaskWake: off the wait list and, with a timeout, off the wheel. */
  function StopWaiting(s: State, t: nat, queue: bool): State
    requires s.Shape() && t < |s.tcb| && 0 <= s.link[t] < |s.lists|
  {
    var st := if queue then s.St(t).(pendQueue := false) else s.St(t).(pend := false);
    var s1 := Unlink(s, t);
    if st.timeout then s1.With(t, st.(timeout := false)).(wheel := s.wheel - {t}) else s1.With(t, st)
  }

  /** osTaskWake. */
  function Wake(s: State, t: nat, queue: bool): State
    requires s.Shape() && t < |s.tcb| && 0 <= s.link[t] < |s.lists| && s.tcb[t].prio < PRIORITIES
  {
    var s1 := StopWaiting(s, t, queue);
    if s1.St(t).suspend then s1 else MakeReady(s1, t)
  }

  /** What osTaskScan does to a task it has taken off the wheel.  TIMEOUT stays set. */
  function ExpireOffWheel(s: State, t: nat): State
    requires s.Shape() && t < |s.tcb| && s.tcb[t].prio < PRIORITIES
    requires s.St(t).pend || s.St(t).pendQueue ==> 0 <= s.link[t] < |s.lists|
  {
    var st := s.St(t);
    var s1 := if st.pend || st.pendQueue then Unlink(s, t) else s;
    var st1 := if st.pend then st.(pend := false)
               else if st.pendQueue then st.(pendQueue := false)
               else st.(delay := false);
    if st.suspend then s1.With(t, st1) else MakeReady(s1.With(t, st1), t)
  }

  function Expire(s: State, t: nat): State
    requires s.Shape() && t < |s.tcb| && s.tcb[t].prio < PRIORITIES
    requires s.St(t).pend || s.St(t).pendQueue ==> 0 <= s.link[t] < |s.lists|
  {
    ExpireOffWheel(s, t).(wheel := s.wheel - {t})
  }

  /** osTaskPriModify. */
  function PriModify(s: State, t: nat, prio: nat): State
    requires s.Shape() && t < |s.tcb| && prio < PRIORITIES
    requires s.St(t).ready ==> 0 <= s.link[t] < |s.lists|
  {
    if s.St(t).ready then
      var s1 := Unlink(s, t);
      Append(s1.(tcb := s1.tcb[t := s1.tcb[t].(prio := prio)]), prio, t)
    else s.(tcb := s.tcb[t := s.tcb[t].(prio := prio)])
  }

  lemma WaitOk(s: State, l: nat, queue: bool, timeout: nat)
    requires Inv(s) && s.lock == 0 && s.run != s.idle && !s.St(s.run).timeout
    requires FIRST_WAIT <= l < |s.lists| && 0 < timeout
    ensures s.link[s.run] == s.tcb[s.run].prio && InvBeforeSchedule(Wait(s, l, queue, timeout))
  {
    hide Without, ListOk, Distinct;
    var t := s.run;
    assert TaskOk(s, t);
    UnlinkLinks(s, t);
    AppendLinks(Unlink(s, t), l, t);
    OneTaskStep(s, Wait(s, l, queue, timeout), t);
  }

  lemma WakeTask(s: State, t: nat, queue: bool)
    requires s.Shape() && t < |s.tcb| && TaskOk(s, t) && (if queue then s.St(t).pendQueue else s.St(t).pend)
    requires s.link[t] < |s.lists|
    ensures TaskOk(Wake(s, t, queue), t) && Wake(s, t, queue).wheel == s.wheel - {t}
    ensures var s' := Wake(s, t, queue);
      var s1 := if s.St(t).suspend then Unlink(s, t) else Append(Unlink(s, t), s.tcb[t].prio, t);
      && s'.lists == s1.lists && s'.link == s1.link && |s'.tcb| == |s.tcb| && s'.run == s.run && s'.idle == s.idle
      && forall x | 0 <= x < |s.tcb| && x != t :: s'.tcb[x] == s.tcb[x]
  {
    hide Without;
  }

  lemma WakeOk(s: State, t: nat, queue: bool)
    requires Base(s) && t < |s.tcb| && (if queue then s.St(t).pendQueue else s.St(t).pend)
    ensures FIRST_WAIT <= s.link[t] < |s.lists| && s.tcb[t].prio < PRIORITIES
    ensures Base(Wake(s, t, queue))
    ensures Wake(s, t, queue).wheel == s.wheel - {t}
  {
    hide Without, ListOk, Distinct, Wake;
    assert TaskOk(s, t);
    WakeTask(s, t, queue);
    UnlinkLinks(s, t);
    AppendLinks(Unlink(s, t), s.tcb[t].prio, t);
    SameLinks(if s.St(t).suspend then Unlink(s, t) else Append(Unlink(s, t), s.tcb[t].prio, t), Wake(s, t, queue));
    OneTaskStep(s, Wake(s, t, queue), t);
  }

  lemma ExpireTaskOk(s: State, t: nat)
    requires s.Shape() && t < |s.tcb| && TaskOk(s, t) && t in s.wheel
    requires s.link[t] == UNLINKED || 0 <= s.link[t] < |s.lists|
    ensures TaskOk(Expire(s, t), t) && Expire(s, t).wheel == s.wheel - {t}
    ensures var s' := Expire(s, t);
      var s1 := if s.St(t).pend || s.St(t).pendQueue then Unlink(s, t) else s;
      var s2 := if s.St(t).suspend then s1 else Append(s1, s.tcb[t].prio, t);
      && s'.lists == s2.lists && s'.link == s2.link && |s'.tcb| == |s.tcb| && s'.run == s.run && s'.idle == s.idle
      && s1.link[t] == UNLINKED
      && (forall x | 0 <= x < |s.tcb| && x != t :: s'.tcb[x] == s.tcb[x])
      && (forall x | 0 <= x < |s.tcb| :: s'.tcb[x].st.suspend == s.tcb[x].st.suspend)
  {
    hide Without;
  }

  lemma ExpireOk(s: State, t: nat)
    requires Base(s) && t in s.wheel
    ensures t < |s.tcb| && s.tcb[t].prio < PRIORITIES
    ensures s.St(t).pend || s.St(t).pendQueue ==> FIRST_WAIT <= s.link[t] < |s.lists|
    ensures Base(Expire(s, t))
    ensures s.tcb[s.run].st.ready ==> t != s.run && Expire(s, t).tcb[s.run].st.ready
    ensures forall x | 0 <= x < |s.tcb| :: Expire(s, t).tcb[x].st.suspend == s.tcb[x].st.suspend
  {
    hide Without, ListOk, Distinct, Expire;
    assert TaskOk(s, t) && TaskOk(s, s.run) && TaskOk(s, s.idle);
    ExpireTaskOk(s, t);
    var s1 := if s.St(t).pend || s.St(t).pendQueue then Unlink(s, t) else s;
    if s1 != s {
      UnlinkLinks(s, t);
    }
    AppendLinks(s1, s.tcb[t].prio, t);
    SameLinks(if s.St(t).suspend then s1 else Append(s1, s.tcb[t].prio, t), Expire(s, t));
    OneTaskStep(s, Expire(s, t), t);
  }

  lemma PriModifyOk(s: State, t: nat, prio: nat)
    requires Base(s) && t < |s.tcb| && prio < PRIORITIES
    ensures s.St(t).ready ==> 0 <= s.link[t] < |s.lists|
    ensures Base(PriModify(s, t, prio))
  {
    assert TaskOk(s, t);
    if s.St(t).ready {
      UnlinkLinks(s, t);
      AppendLinks(Unlink(s, t), prio, t);
    }
    OneTaskStep(s, PriModify(s, t, prio), t);
  }

  // ---------------------------------------------------------------- kernel calls

  /** A step leaves alone everything about task `x` that concerns its waiting. */
  ghost predicate SameWait(s: State, s': State, x: nat) {
    && |s.tcb| == |s'.tcb| == |s.link| == |s'.link| && x < |s.tcb|
    && (var a, b := s.tcb[x].st, s'.tcb[x].st;
        && a.unused == b.unused && a.pend == b.pend && a.pendQueue == b.pendQueue
        && a.timeout == b.timeout && a.delay == b.delay
        && (a.pend || a.pendQueue ==> s.link[x] == s'.link[x]))
    && (x in s.wheel <==> x in s'.wheel)
    && (x in s.wheel ==> s.wheel[x] == s'.wheel[x])
  }

  /** No task but those in `who` notices the step as far as its waiting goes, and no
      wait list changes unless it is one of `lists`. */
  ghost predicate WaitsKept(s: State, s': State, who: set<nat>, lists: set<int>) {
    && |s.tcb| == |s'.tcb| && |s.lists| == |s'.lists|
    && (forall x | 0 <= x < |s.tcb| && x !in who :: SameWait(s, s', x))
    && (forall l | FIRST_WAIT <= l < |s.lists| && l !in lists :: s'.lists[l] == s.lists[l])
  }

  /** LOS_Schedule, in context. */
  ghost function Reschedule(s: State): (s': State)
    requires InvBeforeSchedule(s)
    ensures Inv(s') && WaitsKept(s, s', {}, {})
    ensures s.lock == 0 ==> HeadsBest(s', s'.run)
    ensures s'.lock == s.lock && s'.idle == s.idle && s'.swtmr == s.swtmr
  {
    ScheduleOk(s);
    Schedule(s)
  }

  lemma KeptThenKept(a: State, b: State, c: State, who: set<nat>, lists: set<int>)
    requires WaitsKept(a, b, who, lists) && WaitsKept(b, c, {}, {})
    ensures WaitsKept(a, c, who, lists)
  {
    forall x | 0 <= x < |a.tcb| && x !in who ensures SameWait(a, c, x) {
      assert SameWait(a, b, x) && SameWait(b, c, x);
    }
  }

  lemma NothingKept(s: State)
    requires s.Shape()
    ensures WaitsKept(s, s, {}, {})
  {
  }

  /** Task `t` waits in list `l`, and is on the wheel unless it waits forever. */
  ghost predicate WaitsIn(s: State, t: nat, l: int, queue: bool, timeout: nat) {
    && t < |s.tcb| == |s.link| && s.link[t] == l
    && (var st := s.tcb[t].st;
        st.pend == !queue && st.pendQueue == queue && st.timeout == (timeout != WAIT_FOREVER) && !st.delay && !st.unused)
    && (timeout == WAIT_FOREVER ==> t !in s.wheel)
    && (timeout != WAIT_FOREVER ==> t in s.wheel && s.wheel[t] == timeout)
  }

  /** Task `t` waits for nothing, and no wait has timed out on it. */
  ghost predicate NotWaiting(s: State, t: nat) {
    t < |s.tcb| && t !in s.wheel
    && (var st := s.tcb[t].st; !st.pend && !st.pendQueue && !st.timeout && !st.delay && !st.unused)
  }

  lemma WaitEffect(s: State, l: nat, queue: bool, timeout: nat)
    requires s.Shape() && TaskOk(s, s.run) && s.St(s.run).ready && !s.St(s.run).timeout
    requires FIRST_WAIT <= l < |s.lists|
    ensures var s' := Wait(s, l, queue, timeout);
      && WaitsKept(s, s', {s.run}, {l})
      && s'.lists[l] == s.lists[l] + [s.run] && WaitsIn(s', s.run, l, queue, timeout)
      && s'.lock == s.lock && s'.run == s.run && s'.idle == s.idle && s'.swtmr == s.swtmr
  {
    hide Without;
  }

  lemma WakeEffect(s: State, t: nat, queue: bool)
    requires s.Shape() && t < |s.tcb| && TaskOk(s, t) && (if queue then s.St(t).pendQueue else s.St(t).pend)
    requires s.link[t] < |s.lists|
    ensures var s' := Wake(s, t, queue);
      && WaitsKept(s, s', {t}, {s.link[t]})
      && s'.lists[s.link[t]] == Without(s.lists[s.link[t]], t) && NotWaiting(s', t)
      && s'.lock == s.lock && s'.run == s.run && s'.idle == s.idle && s'.swtmr == s.swtmr
  {
    hide Without;
  }

  /** osTaskWait followed by LOS_Schedule: how every blocking call gives up the processor. */
  ghost function Block(s: State, l: nat, queue: bool, timeout: nat): (s': State)
    requires Inv(s) && s.lock == 0 && s.run != s.idle && !s.St(s.run).timeout
    requires FIRST_WAIT <= l < |s.lists| && 0 < timeout
    ensures Inv(s') && HeadsBest(s', s'.run)
    ensures WaitsKept(s, s', {s.run}, {l})
    ensures s'.lists[l] == s.lists[l] + [s.run] && WaitsIn(s', s.run, l, queue, timeout)
  {
    WaitOk(s, l, queue, timeout);
    assert TaskOk(s, s.run);
    WaitEffect(s, l, queue, timeout);
    var s1 := Wait(s, l, queue, timeout);
    assert SameWait(s1, Reschedule(s1), s.run);
    KeptThenKept(s, s1, Reschedule(s1), {s.run}, {l});
    Reschedule(s1)
  }

  /** osTaskWake on a task that waits in some list. */
  ghost function Grant(s: State, t: nat, queue: bool): (s': State)
    requires Inv(s) && t < |s.tcb| && (if queue then s.St(t).pendQueue else s.St(t).pend)
    ensures Inv(s') && WaitsKept(s, s', {t}, {s.link[t]}) && NotWaiting(s', t)
    ensures FIRST_WAIT <= s.link[t] < |s.lists| && s'.lists[s.link[t]] == Without(s.lists[s.link[t]], t)
  {
    assert TaskOk(s, t) && TaskOk(s, s.run);
    WakeOk(s, t, queue);
    WakeEffect(s, t, queue);
    assert SameWait(s, Wake(s, t, queue), s.run);
    Wake(s, t, queue)
  }

  // ---------------------------------------------------------------- the tick

  function Decrement(wheel: map<nat, nat>): map<nat, nat> {
    map t | t in wheel :: if wheel[t] > 0 then wheel[t] - 1 else 0
  }

  /** The list `l` without the tasks in `gone`. */
  function Minus(l: seq<nat>, gone: set<nat>): seq<nat> {
    if l == [] then [] else (if l[0] in gone then [] else [l[0]]) + Minus(l[1..], gone)
  }

  lemma {:induction false} WithoutMinus(l: seq<nat>, t: nat, gone: set<nat>)
    requires Distinct(l)
    ensures Minus(Without(l, t), gone) == Minus(l, gone + {t})
    ensures Minus(l, {}) == l
  {
    if l != [] {
      WithoutMinus(l[1..], t, gone);
      if l[0] == t {
        MinusAbsent(l[1..], t, gone);
      } else {
        assert Without(l, t)[1..] == Without(l[1..], t);
      }
    }
  }

  lemma {:induction false} MinusAbsent(l: seq<nat>, t: nat, gone: set<nat>)
    requires t !in l
    ensures Minus(l, gone) == Minus(l, gone + {t})
  {
    if l != [] {
      MinusAbsent(l[1..], t, gone);
    }
  }

  lemma MinusNothing(s: State)
    requires LinksOk(s)
    ensures forall l | 0 <= l < |s.lists| :: Minus(s.lists[l], {}) == s.lists[l]
  {
    forall l | 0 <= l < |s.lists| ensures Minus(s.lists[l], {}) == s.lists[l] {
      assert ListOk(s.lists[l], l, s.link);
      WithoutMinus(s.lists[l], 0, {});
    }
  }

  /** Task `t`'s wait or delay has been ended by the scan: a wait keeps its TIMEOUT. */
  ghost predicate Released(s: State, s': State, t: nat) {
    && t < |s.tcb| == |s'.tcb| && t !in s'.wheel
    && (var a, b := s.tcb[t].st, s'.tcb[t].st;
        !b.pend && !b.pendQueue && !b.delay && b.timeout == a.timeout && b.unused == a.unused)
  }

  lemma ExpireEffect(s: State, t: nat)
    requires s.Shape() && t < |s.tcb| && TaskOk(s, t) && t in s.wheel
    requires s.link[t] < |s.lists|
    ensures var s' := Expire(s, t);
      && Released(s, s', t)
      && WaitsKept(s, s', {t}, {s.link[t]})
      && (FIRST_WAIT <= s.link[t] ==> s'.lists[s.link[t]] == Without(s.lists[s.link[t]], t))
      && s'.wheel == s.wheel - {t}
      && s'.lock == s.lock && s'.run == s.run && s'.idle == s.idle && s'.swtmr == s.swtmr
  {
    hide Without;
  }

  /** The loop of osTaskScan over the tasks that come off the wheel. */
  ghost function ExpireAll(s: State, released: seq<nat>): (s': State)
    requires Base(s) && s.tcb[s.run].st.ready && Distinct(released) && forall t <- released :: t in s.wheel
    ensures Base(s') && s'.tcb[s'.run].st.ready
    ensures |s'.tcb| == |s.tcb| && |s'.lists| == |s.lists|
    ensures s'.lock == s.lock && s'.run == s.run && s'.idle == s.idle && s'.swtmr == s.swtmr
    decreases |released|
  {
    if released == [] then s
    else
      var t := released[0];
      assert t in released && t in s.wheel;
      assert TaskOk(s, t);
      ExpireOk(s, t);
      ExpireEffect(s, t);
      ExpireAll(Expire(s, t), released[1..])
  }

  /** What the loop does: the released tasks stop waiting, everyone else's wait and
      every wait list's order stay. */
  lemma {:induction false} ExpireAllEffect(s: State, released: seq<nat>, gone: set<nat>)
    requires Base(s) && s.tcb[s.run].st.ready && Distinct(released) && forall t <- released :: t in s.wheel
    requires gone == set t | t in released
    ensures var s' := ExpireAll(s, released);
      && s'.wheel == s.wheel - gone
      && (forall t <- gone :: Released(s, s', t))
      && (forall x | 0 <= x < |s.tcb| && x !in gone :: SameWait(s, s', x))
      && (forall l | FIRST_WAIT <= l < |s.lists| :: s'.lists[l] == Minus(s.lists[l], gone))
    decreases |released|
  {
    hide Expire, TaskOk, Minus, Without, Released;
    if released == [] {
      assert gone == {};
      MinusNothing(s);
    } else {
      var t := released[0];
      var rest := set x | x in released[1..];
      assert t in released && t in s.wheel;
      assert TaskOk(s, t);
      ExpireOk(s, t);
      ExpireEffect(s, t);
      var s1 := Expire(s, t);
      assert gone == rest + {t} && t !in rest;
      ExpireAllEffect(s1, released[1..], rest);
      ExpireAllStep(s, s1, ExpireAll(s1, released[1..]), t, rest);
    }
  }

  lemma ExpireAllStep(s: State, s1: State, s': State, t: nat, rest: set<nat>)
    requires Base(s) && t in s.wheel && t < |s.tcb| && t !in rest
    requires TaskOk(s, t) && Base(s1) && Released(s, s1, t) && WaitsKept(s, s1, {t}, {s.link[t]})
    requires FIRST_WAIT <= s.link[t] ==> s1.lists[s.link[t]] == Without(s.lists[s.link[t]], t)
    requires s1.wheel == s.wheel - {t} && s'.wheel == s1.wheel - rest && |s'.tcb| == |s.tcb| && |s'.lists| == |s.lists|
    requires forall x <- rest :: Released(s1, s', x)
    requires forall x | 0 <= x < |s.tcb| && x !in rest :: SameWait(s1, s', x)
    requires forall l | FIRST_WAIT <= l < |s.lists| :: s'.lists[l] == Minus(s1.lists[l], rest)
    ensures s'.wheel == s.wheel - (rest + {t})
    ensures forall x <- rest + {t} :: Released(s, s', x)
    ensures forall x | 0 <= x < |s.tcb| && x !in rest + {t} :: SameWait(s, s', x)
    ensures forall l | FIRST_WAIT <= l < |s.lists| :: s'.lists[l] == Minus(s.lists[l], rest + {t})
  {
    forall x | 0 <= x < |s.tcb|
      ensures x in rest + {t} ==> Released(s, s', x)
      ensures x !in rest + {t} ==> SameWait(s, s', x)
    {
      assert x != t ==> SameWait(s, s1, x);
      assert x !in rest ==> SameWait(s1, s', x);
    }
    forall l | FIRST_WAIT <= l < |s.lists| ensures s'.lists[l] == Minus(s.lists[l], rest + {t}) {
      assert ListOk(s.lists[l], l, s.link);
      if l == s.link[t] {
        WithoutMinus(s.lists[l], t, rest);
      } else {
        assert t !in s.lists[l];
        MinusAbsent(s.lists[l], t, rest);
      }
    }
  }

  lemma DecrementOk(s: State)
    requires Inv(s)
    ensures Base(s.(wheel := Decrement(s.wheel)))
  {
    var s0 := s.(wheel := Decrement(s.wheel));
    forall t | 0 <= t < |s.tcb| ensures TaskOk(s0, t) {
      assert TaskOk(s, t);
    }
  }

  lemma ScanThenSchedule(s: State, s0: State, s1: State, s': State, released: seq<nat>)
    requires s0 == s.(wheel := Decrement(s.wheel)) && s1.wheel == Wheel.TickDown(s.wheel)
    requires |s.tcb| == |s1.tcb| && |s.link| == |s.tcb| && |s.lists| == |s1.lists|
    requires WaitsKept(s1, s', {}, {})
    requires forall t <- released :: Released(s0, s1, t)
    requires forall x | 0 <= x < |s.tcb| && x !in released :: SameWait(s0, s1, x)
    ensures forall t <- released :: Released(s, s', t)
    ensures forall x | 0 <= x < |s.tcb| && x !in released :: SameWait(s.(wheel := Wheel.TickDown(s.wheel)), s', x)
  {
    forall x | 0 <= x < |s.tcb|
      ensures x in released ==> Released(s, s', x)
      ensures x !in released ==> SameWait(s.(wheel := Wheel.TickDown(s.wheel)), s', x)
    {
      assert SameWait(s1, s', x);
      assert x in released ==> Released(s0, s1, x);
      assert x !in released ==> SameWait(s0, s1, x);
    }
    forall t <- released ensures Released(s, s', t) {
      assert Released(s0, s1, t);
    }
  }

  /** A task came off the wheel that is not suspended, so osTaskScan schedules. */
  ghost predicate NeedSchedule(s: State, released: seq<nat>) {
    exists i | 0 <= i < |released| :: released[i] < |s.tcb| && !s.tcb[released[i]].st.suspend
  }

  /** osTaskScan: every countdown drops by one, the tasks that reach zero are
      released in the order the wheel yields them. */
  ghost function Scan(s: State, released: seq<nat>): (s': State)
    requires Inv(s) && Wheel.Expiring(s.wheel, released)
    ensures Inv(s') && s'.wheel == Wheel.TickDown(s.wheel)
    ensures |s'.tcb| == |s.tcb| && |s'.lists| == |s.lists|
    ensures s.lock == 0 && NeedSchedule(s, released) ==> HeadsBest(s', s'.run)
  {
    var s0 := s.(wheel := Decrement(s.wheel));
    DecrementOk(s);
    ExpireAllWheel(s0, released);
    var s1 := ExpireAll(s0, released);
    assert s1.wheel == Wheel.TickDown(s.wheel);
    if NeedSchedule(s, released) then Reschedule(s1) else s1
  }

  lemma ExpireAllWheel(s: State, released: seq<nat>)
    requires Base(s) && s.tcb[s.run].st.ready && Distinct(released) && forall t <- released :: t in s.wheel
    ensures ExpireAll(s, released).wheel == s.wheel - set t | t in released
  {
    ExpireAllEffect(s, released, set t | t in released);
  }

  /** What a tick does to the waits: the released tasks stop waiting with TIMEOUT as
      it was, all others keep theirs, and the wait lists lose just the released. */
  lemma ScanEffect(s: State, released: seq<nat>)
    requires Inv(s) && Wheel.Expiring(s.wheel, released)
    ensures var s' := Scan(s, released);
      && (forall t <- released :: Released(s, s', t))
      && (forall x | 0 <= x < |s.tcb| && x !in released :: SameWait(s.(wheel := Wheel.TickDown(s.wheel)), s', x))
      && (forall l | FIRST_WAIT <= l < |s.lists| :: s'.lists[l] == Minus(s.lists[l], set t | t in released))
  {
    hide TaskOk, Minus, Released, SameWait;
    var s0 := s.(wheel := Decrement(s.wheel));
    DecrementOk(s);
    ExpireAllEffect(s0, released, set t | t in released);
    var s1 := ExpireAll(s0, released);
    KeptBySchedule(s1, Scan(s, released));
    ScanThenSchedule(s, s0, s1, Scan(s, released), released);
  }

  lemma KeptBySchedule(s: State, s': State)
    requires Inv(s) && (s' == s || s' == Reschedule(s))
    ensures WaitsKept(s, s', {}, {})
  {
    NothingKept(s);
  }
}
