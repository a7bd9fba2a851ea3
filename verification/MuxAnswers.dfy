/** What a caller of LOS_MuxPend and LOS_MuxPost sees in the running system, field by
    field: control block, priorities, wait list and the task that runs. */
module MuxAnswers {
  import opened Tasks
  import opened Kernel
  import opened MuxOnTasks
  import WaitLists
  import M = Mutex

  /** The priorities of all tasks but `t` are as before, and `t` has priority `p`. */
  ghost predicate OnlyPrio(k: State, k': State, t: nat, p: nat) {
    && |k'.tcb| == |k.tcb|
    && forall x | 0 <= x < |k.tcb| :: k'.tcb[x].prio == if x == t then p else k.tcb[x].prio
  }

  lemma Facts(y: System, m: nat)
    requires Sound(y) && m < |y.cells|
    ensures y.k.run < |y.k.tcb| && y.cells[m].owner < |y.k.tcb| && FIRST_WAIT <= y.cells[m].l < |y.k.lists| && y.cells[m].saved < PRIORITIES
    ensures Seen(y).mux[m] == View(y.k, y.cells[m]) && M.MuxOk(Seen(y).mux[m], |y.k.tcb|)
  {
    RunnerIndex(y.k);
    assert Seen(y).mux[m] == View(y.k, y.cells[m]) && M.MuxOk(Seen(y).mux[m], |y.k.tcb|);
  }

  /** A free mutex is taken and an owned one counted up whatever the timeout and the
      scheduler lock.  A caller that has to wait is last in the kernel's list with its
      timeout on the wheel, and the owner's priority is the better of the two. */
  lemma PendAnswers(y: System, m: nat, timeout: nat, interrupt: bool)
    requires Sound(y) && May(y, MuxPend(m, timeout, interrupt)) && m < |y.cells| && y.cells[m].used
    ensures y.k.run < |y.k.tcb| && y.cells[m].owner < |y.k.tcb|
    ensures var r, y', x, t := PendRet(y, m, timeout, interrupt), After(y, MuxPend(m, timeout, interrupt)), y.cells[m], y.k.run;
      if interrupt then r == M.PendInterr && y' == y
      else if x.count == 0 then r == M.Acquired && y' == y.(cells := y.cells[m := Cell(true, 1, t, y.k.tcb[t].prio, x.l)])
      else if x.owner == t then r == M.Again && y' == y.(cells := y.cells[m := Cell(true, x.count + 1, t, x.saved, x.l)])
      else if timeout == 0 then r == M.Unavailable && y' == y
      else if y.k.lock != 0 then r == M.PendInLock && y' == y
      else
        var own, mine := y.k.tcb[x.owner].prio, y.k.tcb[t].prio;
        && r == M.Blocked && y' == y.(k := y'.k) && x.l < |y.k.lists| && x.l < |y'.k.lists| && y'.k.lists[x.l] == y.k.lists[x.l] + [t]
        && WaitsIn(y'.k, t, x.l, false, timeout) && HeadsBest(y'.k, y'.k.run)
        && OnlyPrio(y.k, y'.k, x.owner, if mine < own then mine else own)
  {
    hide Inv, M.Ok, Block, Lend, HeadsBest;
    Facts(y, m);
    if PendRet(y, m, timeout, interrupt).Blocked? {
      PendBlocks(y, m, timeout, interrupt);
      BoostIs(y, m, timeout, interrupt);
    }
  }

  lemma BoostIs(y: System, m: nat, timeout: nat, interrupt: bool)
    requires Sound(y) && May(y, MuxPend(m, timeout, interrupt)) && PendRet(y, m, timeout, interrupt).Blocked?
    requires SpecPend(y, m, timeout, interrupt, AfterPend(y, m, timeout, interrupt)) && y.k.run < |y.k.tcb| && y.cells[m].owner < |y.k.tcb|
    ensures var own, mine := y.k.tcb[y.cells[m].owner].prio, y.k.tcb[y.k.run].prio;
      OnlyPrio(y.k, AfterPend(y, m, timeout, interrupt).k, y.cells[m].owner, if mine < own then mine else own)
  {
    hide Inv, M.Ok, AfterPend;
    var y' := AfterPend(y, m, timeout, interrupt);
    assert Seen(y').prio == M.Boosted(Seen(y), y.cells[m].owner, y.k.tcb[y.k.run].prio);
    forall x | 0 <= x < |y.k.tcb| ensures y'.k.tcb[x].prio == Seen(y').prio[x] && y.k.tcb[x].prio == Seen(y).prio[x] {
    }
  }

  /** A waiter no better than the owner leaves the owner where it is in its ready list. */
  lemma OwnerKeepsPlace(y: System, m: nat, timeout: nat, interrupt: bool)
    requires Sound(y) && May(y, MuxPend(m, timeout, interrupt)) && PendRet(y, m, timeout, interrupt).Blocked?
    ensures m < |y.cells| && y.cells[m].owner < |y.k.tcb| && y.k.run < |y.k.tcb| && y.cells[m].l < |y.k.lists|
    ensures y.k.tcb[y.cells[m].owner].prio <= y.k.tcb[y.k.run].prio ==>
              AfterPend(y, m, timeout, interrupt).k == Block(y.k, y.cells[m].l, false, timeout)
  {
    hide Inv, M.Ok, Block, HeadsBest;
    Facts(y, m);
  }

  /** A release at the saved priority without waiters leaves the kernel as it is. */
  lemma QuietRelease(y: System, m: nat)
    requires Sound(y) && PostRet(y, m).Released?
    ensures m < |y.cells| && y.k.run < |y.k.tcb|
    ensures y.k.tcb[y.k.run].prio == y.cells[m].saved ==> AfterPost(y, m).k == y.k
  {
    RunnerIndex(y.k);
    hide Inv, M.Ok;
  }

  /** Only the owner's post counts.  The last one gives the caller the saved priority and
      hands the mutex to the first task of the kernel's list, which then waits no more. */
  lemma PostAnswers(y: System, m: nat)
    requires Sound(y) && m < |y.cells| && y.cells[m].used
    ensures ListsExist(y) && y.k.run < |y.k.tcb|
    ensures var r, y', x, t := PostRet(y, m), AfterPost(y, m), y.cells[m], y.k.run;
      var waiters := y.k.lists[x.l];
      if x.count == 0 || x.owner != t then r == M.Invalid && y' == y
      else if x.count > 1 then r == M.Again && y' == y.(cells := y.cells[m := Cell(true, x.count - 1, t, x.saved, x.l)])
      else
        && OnlyPrio(y.k, y'.k, t, x.saved) && x.l < |y'.k.lists|
        && if waiters == [] then
             && r == M.Released && y'.cells == y.cells[m := Cell(true, 0, t, x.saved, x.l)]
             && y'.k.lists[x.l] == [] && y'.k.run == t
           else
             && r == M.HandedOver && waiters[0] < |y.k.tcb|
             && y'.cells == y.cells[m := Cell(true, 1, waiters[0], y.k.tcb[waiters[0]].prio, x.l)]
             && [waiters[0]] + y'.k.lists[x.l] == waiters
             && NotWaiting(y'.k, waiters[0]) && (y.k.lock == 0 ==> HeadsBest(y'.k, y'.k.run))
  {
    hide Inv, M.Ok, Reprioritised, Grant, Reschedule, HeadsBest, WaitLists.AllWait, Separate;
    Facts(y, m);
    if PostRet(y, m).HandedOver? {
      HandOverDoes(y, m);
    } else if PostRet(y, m).Released? {
      assert y.k.lists[y.cells[m].l] == [];
    }
  }

  lemma HandOverDoes(y: System, m: nat)
    requires Sound(y) && PostRet(y, m).HandedOver?
    ensures var y', x, t := AfterPost(y, m), y.cells[m], y.k.run;
      var waiters := y.k.lists[x.l];
      && waiters != [] && waiters[0] < |y.k.tcb| && t != waiters[0] && x.l < |y'.k.lists| && y'.k.lists[x.l] == waiters[1..]
      && y'.cells == y.cells[m := Cell(true, 1, waiters[0], y.k.tcb[waiters[0]].prio, x.l)]
      && OnlyPrio(y.k, y'.k, t, x.saved) && NotWaiting(y'.k, waiters[0]) && (y.k.lock == 0 ==> HeadsBest(y'.k, y'.k.run))
  {
    hide M.Ok, Inv, WaitLists.AllWait, Reprioritised, Grant, Reschedule, HeadsBest, WaitsKept;
    RunnerIndex(y.k);
    var x, t := y.cells[m], y.k.run;
    var k1 := Reprioritised(y.k, t, x.saved);
    var next := y.k.lists[x.l][0];
    assert next in y.k.lists[x.l];
    NextIsOther(y, m);
    WaiterPends(y, k1, m, next);
    HandLists(y, k1, m, next);
    GrantLock(k1, next);
    Awake(k1, next);
  }

  lemma NextIsOther(y: System, m: nat)
    requires Sound(y) && m < |y.cells| && y.k.lists[y.cells[m].l] != [] && y.cells[m].owner == y.k.run
    ensures y.k.lists[y.cells[m].l][0] != y.k.run
  {
    WaitLists.RunnerNotIn(y.k, y.cells[m].l);
  }

  /** A task woken and the scheduler called. */
  lemma Awake(k: State, t: nat)
    requires Inv(k) && t < |k.tcb| && k.St(t).pend
    ensures var k' := Reschedule(Grant(k, t, false));
      NotWaiting(k', t) && (k.lock == 0 ==> HeadsBest(k', k'.run))
  {
    GrantLock(k, t);
    hide Inv, Grant, Reschedule, HeadsBest;
    assert SameWait(Grant(k, t, false), Reschedule(Grant(k, t, false)), t);
  }

  lemma GrantLock(k: State, t: nat)
    requires Inv(k) && t < |k.tcb| && k.St(t).pend
    ensures Grant(k, t, false).lock == k.lock && InvBeforeSchedule(Grant(k, t, false))
  {
  }
}
