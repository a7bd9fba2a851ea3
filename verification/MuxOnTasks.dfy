/** The mutexes on the task manager: LOS_MuxPend and LOS_MuxPost as steps of the whole
    kernel, with real priorities, ready lists and wait lists, among all other calls and
    ticks.  Every such step is a step of module `Mutex`, or takes waiters out. */
module MuxOnTasks {
  import opened Tasks
  import opened Kernel
  import opened TaskCalls
  import opened WaitLists
  import M = Mutex

  /** A mutex control block; wait list `l` of the kernel is its list. */
  datatype Cell = Cell(used: bool, count: nat, owner: nat, saved: nat, l: nat)

  datatype System = System(k: State, cells: seq<Cell>)

  datatype MuxCall = MuxPend(m: nat, timeout: nat, interrupt: bool) | MuxPost(m: nat) | Rest(op: Op)

  function Prios(k: State): (p: seq<nat>)
    ensures |p| == |k.tcb|
  {
    seq(|k.tcb|, t requires 0 <= t < |k.tcb| => k.tcb[t].prio)
  }

  ghost predicate ListsExist(y: System) {
    forall m | 0 <= m < |y.cells| :: FIRST_WAIT <= y.cells[m].l < |y.k.lists|
  }

  function View(k: State, c: Cell): M.Mux
    requires c.l < |k.lists|
  {
    M.Mux(c.used, c.count, c.owner, c.saved, k.lists[c.l])
  }

  ghost function Seen(y: System): (s: M.State)
    requires ListsExist(y)
    ensures |s.prio| == |y.k.tcb| && |s.mux| == |y.cells|
  {
    M.State(Prios(y.k), seq(|y.cells|, m requires 0 <= m < |y.cells| => View(y.k, y.cells[m])))
  }

  ghost predicate Separate(y: System) {
    forall m, n | 0 <= m < n < |y.cells| :: y.cells[m].l != y.cells[n].l
  }

  ghost predicate Sound(y: System) {
    && Inv(y.k) && ListsExist(y) && Separate(y)
    && (forall m | 0 <= m < |y.cells| :: AllWait(y.k, y.cells[m].l, false) && y.cells[m].saved < PRIORITIES)
    && M.Ok(Seen(y))
  }

  /** A pend that blocks is not made by the idle task; no other object uses these lists;
      the owner of a held mutex is not deleted. */
  ghost predicate May(y: System, c: MuxCall)
    requires Sound(y)
  {
    match c
    case MuxPend(m, timeout, interrupt) =>
      PendRet(y, m, timeout, interrupt).Blocked? ==> y.k.run != y.k.idle && !y.k.St(y.k.run).timeout
    case MuxPost(_) => true
    case Rest(op) =>
      && Kernel.Enabled(y.k, op)
      && (forall c <- y.cells :: Foreign(y.k, op, c.l))
      && (op.OpDelete? ==> forall c <- y.cells :: c.count > 0 ==> c.owner != op.task)
  }

  /** The running task makes the call, so it waits for nothing. */
  lemma RunnerRuns(y: System)
    requires Sound(y)
    ensures M.Runs(Seen(y), y.k.run)
  {
    hide M.Ok;
    var s := Seen(y);
    forall x <- s.mux ensures y.k.run !in x.waiters {
      var m :| 0 <= m < |s.mux| && s.mux[m] == x;
      assert s.mux[m] == View(y.k, y.cells[m]);
      RunnerNotIn(y.k, y.cells[m].l);
    }
  }

  // ---------------------------------------------------------------- priorities

  /** A priority below the lowest, as all priorities are. */
  lemma PrioInRange(k: State, t: nat)
    requires Inv(k) && t < |k.tcb|
    ensures k.tcb[t].prio < PRIORITIES
  {
    assert TaskOk(k, t);
  }

  /** Steps that set no priority leave all priorities alone. */
  predicate KeepsPrio(op: Op) {
    !op.OpSetPrio? && !op.OpPriSet? && !op.OpCreate?
  }

  ghost predicate SamePrios(k: State, k': State) {
    |k'.tcb| == |k.tcb| && forall x | 0 <= x < |k.tcb| :: k'.tcb[x].prio == k.tcb[x].prio
  }

  lemma SchedulePrios(k: State)
    requires InvBeforeSchedule(k)
    ensures SamePrios(k, Reschedule(k))
  {
    ScheduleMoves(k);
  }

  lemma BlockPrios(k: State, l: nat, queue: bool, timeout: nat)
    requires Inv(k) && k.lock == 0 && k.run != k.idle && !k.St(k.run).timeout && FIRST_WAIT <= l < |k.lists| && 0 < timeout
    ensures SamePrios(k, Block(k, l, queue, timeout))
  {
    hide Without, ListOk, HeadsBest, SomeReady;
    WaitOk(k, l, queue, timeout);
    SchedulePrios(Wait(k, l, queue, timeout));
  }

  lemma {:induction false} ExpireAllPrios(k: State, released: seq<nat>)
    requires Base(k) && k.tcb[k.run].st.ready && Distinct(released) && forall t <- released :: t in k.wheel
    ensures SamePrios(k, ExpireAll(k, released))
    decreases |released|
  {
    if released != [] {
      var t := released[0];
      assert t in released;
      assert TaskOk(k, t);
      ExpireOk(k, t);
      ExpireEffect(k, t);
      ExpiryDoes(k, t);
      hide Expire, TaskOk, Base;
      ExpireAllPrios(Expire(k, t), released[1..]);
    }
  }

  lemma TickPrios(k: State, released: seq<nat>)
    requires Inv(k) && Wheel.Expiring(k.wheel, released)
    ensures SamePrios(k, Scan(k, released))
  {
    hide HeadsBest, SomeReady, LinksOk, TaskOk;
    var k0 := k.(wheel := Decrement(k.wheel));
    DecrementOk(k);
    ExpireAllPrios(k0, released);
    ExpireAllWheel(k0, released);
    hide ExpireAll, Decrement;
    if NeedSchedule(k, released) {
      SchedulePrios(ExpireAll(k0, released));
    }
  }

  lemma CallPrios(k: State, op: Op)
    requires Inv(k) && Kernel.Enabled(k, op) && KeepsPrio(op)
    requires op.OpSuspend? || op.OpResume? || op.OpYield? || op.OpDelay? || op.OpDelete? || op.OpUnlock? || op.OpLock? || op.OpClearTimeout?
    ensures SamePrios(k, Apply(k, op))
  {
    hide Suspend, Resume, Yield, Delay, Delete, ListsAre, Still, HeadsBest, Inv;
    match op
    case OpSuspend(t) => CallSuspend(k, t);
    case OpResume(t) => CallResume(k, t);
    case OpYield => YieldDoes(k);
    case OpDelay(ticks) => CallDelay(k, ticks);
    case OpDelete(t) => CallDelete(k, t);
    case OpUnlock => CallUnlock(k);
    case _ =>
  }

  lemma CallSuspend(k: State, t: nat)
    requires Inv(k)
    ensures SamePrios(k, Suspend(k, t))
  {
    if SuspendRet(k, t) == Tasks.Ok {
      hide Suspend, Inv;
      SuspendDoes(k, t);
    }
  }

  lemma CallResume(k: State, t: nat)
    requires Inv(k)
    ensures SamePrios(k, Resume(k, t))
  {
    if ResumeRet(k, t) == Tasks.Ok {
      hide Resume, Inv;
      ResumeDoes(k, t);
    }
  }

  lemma CallDelay(k: State, ticks: nat)
    requires Inv(k) && k.run != k.idle && !k.St(k.run).timeout
    ensures SamePrios(k, Delay(k, ticks))
  {
    hide Yield, HeadsBest, WaitsKept;
    if k.lock == 0 {
      if ticks == 0 {
        YieldDoes(k);
      } else {
        hide Delay, Inv;
        DelayDoes(k, ticks);
      }
    }
  }

  lemma CallDelete(k: State, t: nat)
    requires Inv(k) && (t < |k.tcb| ==> t != k.run && !TimedOut(k, t))
    ensures SamePrios(k, Delete(k, t))
  {
    if DeleteRet(k, t) == Tasks.Ok {
      hide Delete, Inv;
      DeleteDoes(k, t);
    }
  }

  lemma CallUnlock(k: State)
    requires Inv(k)
    ensures SamePrios(k, Unlock(k))
  {
    LockFrame(k, if k.lock > 0 then k.lock - 1 else 0);
    hide Base, HeadsBest;
    if k.lock == 1 {
      SchedulePrios(k.(lock := 0));
    }
  }

  lemma GrantPrios(k: State, t: nat, queue: bool)
    requires Inv(k) && t < |k.tcb| && (if queue then k.St(t).pendQueue else k.St(t).pend)
    ensures SamePrios(k, Grant(k, t, queue))
  {
    hide Grant;
    GrantDoes(k, t, queue);
  }

  lemma OpPrios(k: State, op: Op)
    requires Inv(k) && Kernel.Enabled(k, op) && KeepsPrio(op)
    ensures SamePrios(k, Apply(k, op))
  {
    if op.OpBlock? || op.OpGrant? || op.OpSchedule? || op.OpTick? {
      hide Block, Grant, Reschedule, Scan, Inv;
      match op
      case OpBlock(l, queue, timeout) => BlockPrios(k, l, queue, timeout);
      case OpGrant(t, queue) => GrantPrios(k, t, queue);
      case OpSchedule => AtSchedule(k);
      case OpTick(released) => TickPrios(k, released);
    } else {
      CallPrios(k, op);
    }
  }

  lemma AtSchedule(k: State)
    requires Inv(k)
    ensures SamePrios(k, Reschedule(k))
  {
    SchedulePrios(k);
  }

  // ---------------------------------------------------------------- LOS_MuxPend, LOS_MuxPost

  lemma SetPrioFrame(k: State, t: nat, prio: nat)
    requires Inv(k) && t < |k.tcb| && prio < PRIORITIES
    ensures var k' := SetPrio(k, t, prio);
      && k'.run == k.run && k'.lock == k.lock && k'.idle == k.idle && |k'.tcb| == |k.tcb| && |k'.lists| == |k.lists|
      && (forall x | 0 <= x < |k.tcb| :: k'.tcb[x].prio == (if x == t then prio else k.tcb[x].prio) && k'.tcb[x].st == k.tcb[x].st)
      && (forall l | FIRST_WAIT <= l < |k.lists| :: k'.lists[l] == k.lists[l])
  {
    hide Without, LinksOk;
    PriModifyKept(k, t, prio);
  }

  /** osTaskPriModify where the code calls it: only if the priority would change. */
  ghost function Reprioritised(k: State, t: nat, prio: nat): (k': State)
    requires Inv(k) && t < |k.tcb| && prio < PRIORITIES
    ensures Inv(k') && k'.run == k.run && k'.lock == k.lock && k'.idle == k.idle && |k'.lists| == |k.lists| && |k'.tcb| == |k.tcb|
    ensures forall x | 0 <= x < |k.tcb| :: k'.tcb[x].prio == (if x == t then prio else k.tcb[x].prio) && k'.tcb[x].st == k.tcb[x].st
    ensures forall l | FIRST_WAIT <= l < |k.lists| :: k'.lists[l] == k.lists[l]
  {
    SetPrioFrame(k, t, prio);
    if k.tcb[t].prio != prio then SetPrio(k, t, prio) else k
  }

  ghost function Lend(y: System, m: nat): (k': State)
    requires Sound(y) && m < |y.cells|
    ensures Inv(k') && k'.run == y.k.run && k'.lock == y.k.lock && k'.idle == y.k.idle && |k'.lists| == |y.k.lists| && |k'.tcb| == |y.k.tcb|
    ensures forall x | 0 <= x < |y.k.tcb| :: k'.tcb[x].st == y.k.tcb[x].st
    ensures Prios(k') == M.Boosted(Seen(y), y.cells[m].owner, y.k.tcb[y.k.run].prio)
    ensures forall l | FIRST_WAIT <= l < |y.k.lists| :: k'.lists[l] == y.k.lists[l]
  {
    var o := y.cells[m].owner;
    assert M.MuxOk(Seen(y).mux[m], |y.k.tcb|);
    PrioInRange(y.k, y.k.run);
    if y.k.tcb[o].prio > y.k.tcb[y.k.run].prio then Reprioritised(y.k, o, y.k.tcb[y.k.run].prio) else y.k
  }

  ghost function PendRet(y: System, m: nat, timeout: nat, interrupt: bool): M.Ret
    requires ListsExist(y)
  {
    M.PendRet(Seen(y), y.k.run, m, timeout != 0, interrupt, y.k.lock != 0)
  }

  ghost function AfterPend(y: System, m: nat, timeout: nat, interrupt: bool): System
    requires Sound(y) && May(y, MuxPend(m, timeout, interrupt))
  {
    match PendRet(y, m, timeout, interrupt)
    case Acquired => y.(cells := y.cells[m := y.cells[m].(count := 1, owner := y.k.run, saved := y.k.tcb[y.k.run].prio)])
    case Again => y.(cells := y.cells[m := y.cells[m].(count := y.cells[m].count + 1)])
    case Blocked => y.(k := Block(Lend(y, m), y.cells[m].l, false, timeout))
    case _ => y
  }

  ghost function PostRet(y: System, m: nat): M.Ret
    requires ListsExist(y)
  {
    M.PostRet(Seen(y), y.k.run, m)
  }

  /** Waiter `t` of mutex `m` in a kernel where only priorities have changed. */
  lemma WaiterPends(y: System, k: State, m: nat, t: nat)
    requires Sound(y) && m < |y.cells| && t in y.k.lists[y.cells[m].l]
    requires |k.tcb| == |y.k.tcb| && forall x | 0 <= x < |y.k.tcb| :: k.tcb[x].st == y.k.tcb[x].st
    ensures t < |k.tcb| && k.St(t).pend
  {
  }

  ghost function AfterPost(y: System, m: nat): System
    requires Sound(y)
  {
    var r := PostRet(y, m);
    if r.Invalid? then y
    else
      var c := y.cells[m];
      if r.Again? then y.(cells := y.cells[m := c.(count := c.count - 1)])
      else
        var k1 := Reprioritised(y.k, y.k.run, c.saved);
        if r.Released? then System(k1, y.cells[m := c.(count := 0)])
        else
          var next := y.k.lists[c.l][0];
          assert next in y.k.lists[c.l];
          WaiterPends(y, k1, m, next);
          System(Reschedule(Grant(k1, next, false)), y.cells[m := c.(count := 1, owner := next, saved := k1.tcb[next].prio)])
  }

  ghost function After(y: System, c: MuxCall): System
    requires Sound(y) && May(y, c)
  {
    match c
    case MuxPend(m, timeout, interrupt) => AfterPend(y, m, timeout, interrupt)
    case MuxPost(m) => AfterPost(y, m)
    case Rest(op) => y.(k := Apply(y.k, op))
  }

  // ---------------------------------------------------------------- refinement

  /** The lists of all mutexes but possibly `m` are as they were, and everyone in the
      list of `m` waits. */
  ghost predicate OnlyList(y: System, k: State, m: nat) {
    && |k.lists| == |y.k.lists| && |k.tcb| == |y.k.tcb| && m < |y.cells|
    && (forall n | 0 <= n < |y.cells| && n != m :: y.cells[n].l < |k.lists| && k.lists[y.cells[n].l] == y.k.lists[y.cells[n].l])
    && (forall n | 0 <= n < |y.cells| :: y.cells[n].l < |k.lists| && AllWait(k, y.cells[n].l, false))
  }

  /** What has to be shown of a step about mutex `m`. */
  lemma Refined(y: System, y': System, m: nat, s': M.State)
    requires Sound(y) && Inv(y'.k) && OnlyList(y, y'.k, m)
    requires |y'.cells| == |y.cells| && y'.cells == y.cells[m := y'.cells[m]] && y'.cells[m].l == y.cells[m].l
    requires y'.cells[m].saved < PRIORITIES
    requires M.Ok(s') && |s'.mux| == |y.cells| && s'.prio == Prios(y'.k)
    requires s'.mux == Seen(y).mux[m := s'.mux[m]] && s'.mux[m] == View(y'.k, y'.cells[m])
    ensures Sound(y') && Seen(y') == s'
  {
    hide M.Ok, Inv, AllWait;
    forall n | 0 <= n < |y.cells| ensures Seen(y').mux[n] == s'.mux[n] && y'.cells[n].l == y.cells[n].l && y'.cells[n].saved < PRIORITIES {
    }
    assert Seen(y').mux == s'.mux;
  }

  ghost predicate SpecPend(y: System, m: nat, timeout: nat, interrupt: bool, y': System)
    requires Sound(y)
  {
    && Sound(y') && M.Runs(Seen(y), y.k.run) && (forall x <- Seen(y).mux :: x.owner < |Seen(y).prio|)
    && Seen(y') == M.Pend(Seen(y), y.k.run, m, timeout != 0, interrupt, y.k.lock != 0)
  }

  lemma PendQuiet(y: System, m: nat, timeout: nat, interrupt: bool)
    requires Sound(y) && May(y, MuxPend(m, timeout, interrupt)) && !PendRet(y, m, timeout, interrupt).Blocked?
    ensures SpecPend(y, m, timeout, interrupt, AfterPend(y, m, timeout, interrupt))
  {
    hide M.Ok, Inv, AllWait;
    var y' := AfterPend(y, m, timeout, interrupt);
    RunnerRuns(y);
    M.PendOk(Seen(y), y.k.run, m, timeout != 0, interrupt, y.k.lock != 0);
    if y' != y {
      RunnerIndex(y.k);
      Refined(y, y', m, M.Pend(Seen(y), y.k.run, m, timeout != 0, interrupt, y.k.lock != 0));
    }
  }

  lemma RunnerIndex(k: State)
    requires Inv(k)
    ensures k.run < |k.tcb| && k.tcb[k.run].prio < PRIORITIES
  {
    assert TaskOk(k, k.run);
  }

  lemma PendBlocks(y: System, m: nat, timeout: nat, interrupt: bool)
    requires Sound(y) && May(y, MuxPend(m, timeout, interrupt)) && PendRet(y, m, timeout, interrupt).Blocked?
    ensures SpecPend(y, m, timeout, interrupt, AfterPend(y, m, timeout, interrupt))
  {
    hide M.Ok, Inv, AllWait, Block, Lend, M.Boosted, SamePrios, OnlyList, M.Runs;
    RunnerRuns(y);
    M.PendOk(Seen(y), y.k.run, m, timeout != 0, interrupt, y.k.lock != 0);
    RunnerIndex(y.k);
    var k1 := Lend(y, m);
    BlockPrios(k1, y.cells[m].l, false, timeout);
    BlockLists(y, k1, m, timeout);
    var y' := AfterPend(y, m, timeout, interrupt);
    SamePriosSeen(k1, y'.k);
    hide M.Pend;
    BlockedSpec(y, m, timeout, interrupt, y');
    Refined(y, y', m, M.Pend(Seen(y), y.k.run, m, timeout != 0, interrupt, y.k.lock != 0));
  }

  lemma SamePriosSeen(k: State, k': State)
    requires SamePrios(k, k')
    ensures Prios(k') == Prios(k)
  {
  }

  lemma BlockedSpec(y: System, m: nat, timeout: nat, interrupt: bool, y': System)
    requires ListsExist(y) && PendRet(y, m, timeout, interrupt).Blocked? && y.k.run < |y.k.tcb| && (forall x <- Seen(y).mux :: x.owner < |Seen(y).prio|)
    requires y'.cells == y.cells && y.cells[m].l < |y'.k.lists| && y'.k.lists[y.cells[m].l] == y.k.lists[y.cells[m].l] + [y.k.run]
    requires Seen(y).mux[m] in Seen(y).mux && Prios(y'.k) == M.Boosted(Seen(y), y.cells[m].owner, y.k.tcb[y.k.run].prio)
    ensures var s' := M.Pend(Seen(y), y.k.run, m, timeout != 0, interrupt, y.k.lock != 0);
      && |s'.mux| == |y.cells| && s'.prio == Prios(y'.k)
      && s'.mux == Seen(y).mux[m := s'.mux[m]] && s'.mux[m] == View(y'.k, y'.cells[m])
  {
    hide M.Boosted;
  }

  /** `k` differs from the kernel of `y` in priorities only. */
  ghost predicate OnlyPrios(y: System, k: State) {
    && Inv(k) && k.run == y.k.run && k.lock == y.k.lock && k.idle == y.k.idle && |k.lists| == |y.k.lists| && |k.tcb| == |y.k.tcb|
    && (forall x | 0 <= x < |y.k.tcb| :: k.tcb[x].st == y.k.tcb[x].st)
    && (forall l | FIRST_WAIT <= l < |y.k.lists| :: k.lists[l] == y.k.lists[l])
  }

  lemma BlockLists(y: System, k: State, m: nat, timeout: nat)
    requires Sound(y) && OnlyPrios(y, k) && m < |y.cells|
    requires k.lock == 0 && k.run != k.idle && k.run < |k.tcb| && !k.St(k.run).timeout && 0 < timeout
    ensures var k' := Block(k, y.cells[m].l, false, timeout);
      OnlyList(y, k', m) && k'.lists[y.cells[m].l] == y.k.lists[y.cells[m].l] + [k.run]
  {
    hide Block, M.Ok, HeadsBest;
    var l := y.cells[m].l;
    var k' := Block(k, l, false, timeout);
    forall n | 0 <= n < |y.cells| ensures AllWait(k', y.cells[n].l, false) {
      forall t <- k'.lists[y.cells[n].l] ensures t < |k'.tcb| && k'.tcb[t].st.pend && !k'.tcb[t].st.pendQueue {
        if t != k.run {
          assert t in y.k.lists[y.cells[n].l] && SameWait(k, k', t);
        }
      }
    }
  }

  ghost predicate SpecPost(y: System, m: nat, y': System)
    requires Sound(y)
  {
    && Sound(y') && M.Runs(Seen(y), y.k.run) && (forall x <- Seen(y).mux :: forall w <- x.waiters :: w < |Seen(y).prio|)
    && Seen(y') == M.Post(Seen(y), y.k.run, m)
  }

  lemma PriosOnlyList(y: System, k: State, m: nat)
    requires Sound(y) && OnlyPrios(y, k) && m < |y.cells|
    ensures OnlyList(y, k, m)
  {
    hide M.Ok, Inv;
  }

  lemma RestoredSpec(y: System, k: State, saved: nat)
    requires y.k.run < |y.k.tcb| && |k.tcb| == |y.k.tcb| && ListsExist(y)
    requires forall x | 0 <= x < |y.k.tcb| :: k.tcb[x].prio == if x == y.k.run then saved else y.k.tcb[x].prio
    ensures Prios(k) == Seen(y).prio[y.k.run := saved]
  {
  }

  lemma PostReleases(y: System, m: nat)
    requires Sound(y) && !PostRet(y, m).HandedOver?
    ensures SpecPost(y, m, AfterPost(y, m))
  {
    hide M.Ok, Inv, AllWait, OnlyList, M.Runs, Reprioritised;
    RunnerRuns(y);
    M.PostOk(Seen(y), y.k.run, m);
    RunnerIndex(y.k);
    var y' := AfterPost(y, m);
    if PostRet(y, m).Released? {
      PriosOnlyList(y, y'.k, m);
      RestoredSpec(y, y'.k, y.cells[m].saved);
      Refined(y, y', m, M.Post(Seen(y), y.k.run, m));
    } else if PostRet(y, m).Again? {
      PriosOnlyList(y, y.k, m);
      Refined(y, y', m, M.Post(Seen(y), y.k.run, m));
    }
  }

  lemma HandLists(y: System, k: State, m: nat, next: nat)
    requires Sound(y) && OnlyPrios(y, k) && m < |y.cells| && y.k.lists[y.cells[m].l] != [] && next == y.k.lists[y.cells[m].l][0]
    requires next < |k.tcb| && k.St(next).pend
    ensures var k' := Reschedule(Grant(k, next, false));
      && OnlyList(y, k', m) && k'.lists[y.cells[m].l] == y.k.lists[y.cells[m].l][1..]
      && SamePrios(k, k')
  {
    hide Grant, Reschedule, M.Ok, HeadsBest, Base;
    var l := y.cells[m].l;
    var k1 := Grant(k, next, false);
    var k' := Reschedule(k1);
    Member(k, l, next);
    InvDistinct(k, l);
    GrantPrios(k, next, false);
    AtSchedule(k1);
    forall n | 0 <= n < |y.cells| ensures AllWait(k', y.cells[n].l, false) {
      forall t <- k'.lists[y.cells[n].l] ensures t < |k'.tcb| && k'.tcb[t].st.pend && !k'.tcb[t].st.pendQueue {
        InvDistinct(k', y.cells[n].l);
        Member(k', y.cells[n].l, t);
        StillPends(y, k, k1, k', m, next, n, t);
      }
    }
  }

  lemma StillPends(y: System, k: State, k1: State, k': State, m: nat, next: nat, n: nat, t: nat)
    requires Sound(y) && OnlyPrios(y, k) && m < |y.cells| && n < |y.cells| && next < |k.tcb|
    requires k.link[next] == y.cells[m].l && WaitsKept(k, k1, {next}, {k.link[next]}) && WaitsKept(k1, k', {}, {})
    requires y.k.lists[y.cells[m].l] != [] && next == y.k.lists[y.cells[m].l][0] && Distinct(y.k.lists[y.cells[m].l])
    requires k1.lists[y.cells[m].l] == Without(k.lists[y.cells[m].l], next)
    requires t in k'.lists[y.cells[n].l]
    ensures t < |k'.tcb| && k'.tcb[t].st.pend && !k'.tcb[t].st.pendQueue
  {
    hide M.Ok, Inv;
    var l := y.k.lists[y.cells[m].l];
    assert k1.lists[y.cells[m].l] == l[1..];
    assert t in y.k.lists[y.cells[n].l];
    assert t != next by {
      if n == m {
        assert t in l[1..];
      } else {
        assert next in l;
        NotInTwoLists(y, m, n, next);
      }
    }
    assert SameWait(k, k1, t) && SameWait(k1, k', t);
  }

  lemma NotInTwoLists(y: System, m: nat, n: nat, t: nat)
    requires Sound(y) && m < |y.cells| && n < |y.cells| && m != n
    requires t in y.k.lists[y.cells[m].l]
    ensures t !in y.k.lists[y.cells[n].l]
  {
    Member(y.k, y.cells[m].l, t);
    assert ListOk(y.k.lists[y.cells[n].l], y.cells[n].l, y.k.link);
  }

  lemma HandedSpec(y: System, m: nat, y': System)
    requires ListsExist(y) && PostRet(y, m).HandedOver? && y.k.run < |y.k.tcb|
    requires (forall x <- Seen(y).mux :: forall w <- x.waiters :: w < |Seen(y).prio|) && Seen(y).mux[m] in Seen(y).mux
    requires var c := y.cells[m];
      && y.k.lists[c.l] != [] && y.k.lists[c.l][0] in y.k.lists[c.l] && |y'.k.tcb| == |y.k.tcb| && y.k.lists[c.l][0] < |y.k.tcb|
      && Prios(y'.k) == Seen(y).prio[y.k.run := c.saved]
      && y'.cells == y.cells[m := c.(count := 1, owner := y.k.lists[c.l][0], saved := y'.k.tcb[y.k.lists[c.l][0]].prio)]
      && c.l < |y'.k.lists| && y'.k.lists[c.l] == y.k.lists[c.l][1..]
    ensures var s' := M.Post(Seen(y), y.k.run, m);
      && |s'.mux| == |y.cells| && s'.prio == Prios(y'.k)
      && s'.mux == Seen(y).mux[m := s'.mux[m]] && s'.mux[m] == View(y'.k, y'.cells[m])
  {
    assert Prios(y'.k)[y.k.lists[y.cells[m].l][0]] == y'.k.tcb[y.k.lists[y.cells[m].l][0]].prio;
  }

  lemma PostHandsOver(y: System, m: nat)
    requires Sound(y) && PostRet(y, m).HandedOver?
    ensures SpecPost(y, m, AfterPost(y, m))
  {
    hide M.Ok, Inv, AllWait, OnlyList, M.Runs, Reprioritised, Grant, Reschedule, SamePrios;
    RunnerRuns(y);
    M.PostOk(Seen(y), y.k.run, m);
    RunnerIndex(y.k);
    var c := y.cells[m];
    var k1 := Reprioritised(y.k, y.k.run, c.saved);
    var next := y.k.lists[c.l][0];
    assert next in y.k.lists[c.l] && Seen(y).mux[m] == View(y.k, c);
    WaiterPends(y, k1, m, next);
    HandLists(y, k1, m, next);
    var y' := AfterPost(y, m);
    RestoredSpec(y, k1, c.saved);
    SamePriosSeen(k1, y'.k);
    PrioInRange(k1, next);
    SamePrioOf(k1, y'.k, next);
    hide M.Post;
    HandedSpec(y, m, y');
    Refined(y, y', m, M.Post(Seen(y), y.k.run, m));
  }

  lemma SamePrioOf(k: State, k': State, t: nat)
    requires SamePrios(k, k') && t < |k.tcb|
    ensures |k'.tcb| == |k.tcb| && k'.tcb[t].prio == k.tcb[t].prio
  {
  }

  // ---------------------------------------------------------------- the rest of the system

  /** The same mutexes, with some waiters gone. */
  ghost predicate LosesWaiters(s: M.State, s': M.State) {
    && |s'.mux| == |s.mux| && |s'.prio| == |s.prio|
    && forall m | 0 <= m < |s.mux| :: s'.mux[m] == s.mux[m].(waiters := s'.mux[m].waiters) && Thinner(s.mux[m].waiters, s'.mux[m].waiters)
  }

  lemma LosesOk(s: M.State, s': M.State)
    requires M.Ok(s) && LosesWaiters(s, s') && forall m | 0 <= m < |s'.mux| :: M.Distinct(s'.mux[m].waiters)
    ensures M.Ok(s')
  {
    hide Thinner, M.Distinct;
    forall m | 0 <= m < |s.mux| ensures forall t <- s'.mux[m].waiters :: t in s.mux[m].waiters {
      ThinnerMeans(s.mux[m].waiters, s'.mux[m].waiters);
    }
    forall m | 0 <= m < |s.mux| ensures M.MuxOk(s'.mux[m], |s'.prio|) {
      assert M.MuxOk(s.mux[m], |s.prio|);
      if s'.mux[m].waiters != [] {
        assert s'.mux[m].waiters[0] in s.mux[m].waiters;
      }
    }
  }

  lemma RestList(y: System, op: Op, m: nat)
    requires Sound(y) && May(y, Rest(op)) && m < |y.cells|
    ensures var l, k' := y.cells[m].l, Apply(y.k, op);
      && l < |k'.lists| && Thinner(y.k.lists[l], k'.lists[l]) && AllWait(k', l, false) && Distinct(k'.lists[l])
  {
    hide M.Ok, Inv, Apply, Foreign, AllWait;
    assert y.cells[m] in y.cells;
    var gone := ForeignOnlyDrops(y.k, op, y.cells[m].l);
    ForeignKeepsWaiting(y.k, op, y.cells[m].l, false);
    InvDistinct(Apply(y.k, op), y.cells[m].l);
  }

  lemma RestLoses(y: System, op: Op)
    requires Sound(y) && May(y, Rest(op))
    ensures Sound(After(y, Rest(op))) && LosesWaiters(Seen(y), Seen(After(y, Rest(op))))
  {
    hide M.Ok, Inv, Apply, AllWait, Distinct, M.Distinct, Thinner;
    var y' := y.(k := Apply(y.k, op));
    SizesKept(y.k, op);
    forall m | 0 <= m < |y.cells|
      ensures Thinner(y.k.lists[y.cells[m].l], y'.k.lists[y.cells[m].l]) && AllWait(y'.k, y.cells[m].l, false)
      ensures M.Distinct(y'.k.lists[y.cells[m].l])
    {
      RestList(y, op, m);
      BothDistinct(y'.k.lists[y.cells[m].l]);
    }
    LosesOk(Seen(y), Seen(y'));
  }

  lemma BothDistinct(l: seq<nat>)
    ensures Distinct(l) <==> M.Distinct(l)
  {
  }

  /** Every step of the running system is, for the mutexes, a step as `Mutex` defines it
      on the real task priorities, or takes some waiters out.  Calls that set no
      priority leave all priorities alone. */
  lemma StepRefinesMutex(y: System, c: MuxCall)
    requires Sound(y) && May(y, c)
    ensures var y' := After(y, c);
      && Sound(y')
      && match c
         case MuxPend(m, timeout, interrupt) => SpecPend(y, m, timeout, interrupt, y')
         case MuxPost(m) => SpecPost(y, m, y')
         case Rest(op) => LosesWaiters(Seen(y), Seen(y')) && (KeepsPrio(op) ==> Seen(y').prio == Seen(y).prio)
  {
    hide AfterPend, AfterPost, Apply, LosesWaiters, M.Ok, AllWait, Separate, Base;
    match c
    case MuxPend(m, timeout, interrupt) =>
      if PendRet(y, m, timeout, interrupt).Blocked? {
        PendBlocks(y, m, timeout, interrupt);
      } else {
        PendQuiet(y, m, timeout, interrupt);
      }
    case MuxPost(m) =>
      if PostRet(y, m).HandedOver? {
        PostHandsOver(y, m);
      } else {
        PostReleases(y, m);
      }
    case Rest(op) =>
      RestLoses(y, op);
      if KeepsPrio(op) {
        OpPrios(y.k, op);
        SamePriosSeen(y.k, Apply(y.k, op));
      }
  }
}
