/** LOS_MuxPost without waiters puts its caller back to the saved priority and returns
    without calling the scheduler.  This module proves exactly when the caller is then
    no longer the task that should run. */
module MuxPreemption {
  import opened Tasks
  import opened Kernel
  import TaskCalls
  import opened MuxOnTasks
  import M = Mutex

  /** Nobody but `t` is ready at priority `p` or better. */
  ghost predicate NobodyElse(s: State, t: nat, p: nat)
    requires p < PRIORITIES <= |s.lists|
  {
    forall r | 0 <= r <= p :: Without(s.lists[r], t) == []
  }

  lemma NotThere(l: seq<nat>, x: nat)
    requires x !in l
    ensures Without(l, x) == l
  {
  }

  /** The running task is in the ready list of its priority and in no other. */
  lemma RunnerPlace(k: State, l: nat)
    requires Inv(k) && l < |k.lists|
    ensures PRIORITIES <= |k.lists| && k.run < |k.tcb| && k.tcb[k.run].prio < PRIORITIES
    ensures k.run in k.lists[l] <==> l == k.tcb[k.run].prio
  {
    assert TaskOk(k, k.run) && ListOk(k.lists[l], l, k.link);
  }

  /** The lists after the runner has been given another priority. */
  lemma RunnerMoves(k: State, p: nat)
    requires Inv(k) && p < PRIORITIES && k.run < |k.tcb| && k.tcb[k.run].prio != p
    ensures var k' := SetPrio(k, k.run, p);
      && k'.run == k.run && PRIORITIES <= |k.lists| == |k'.lists|
      && forall r | 0 <= r < PRIORITIES :: k'.lists[r] == Without(k.lists[r], k.run) + if r == p then [k.run] else []
  {
    var k' := SetPrio(k, k.run, p);
    SetPrioFrame(k, k.run, p);
    TaskCalls.SetPrioDoes(k, k.run, p);
    assert PRIORITIES <= |k.lists| && k.St(k.run).ready;
    hide Inv, SetPrio, Without;
    forall r | 0 <= r < PRIORITIES ensures k'.lists[r] == Without(k.lists[r], k.run) + if r == p then [k.run] else [] {
      RunnerPlace(k, r);
      if r != k.tcb[k.run].prio {
        NotThere(k.lists[r], k.run);
      }
    }
  }

  lemma MovedHeads(k: State, k': State, t: nat, p: nat)
    requires p < PRIORITIES <= |k.lists| == |k'.lists|
    requires forall r | 0 <= r < PRIORITIES :: t !in Without(k.lists[r], t)
    requires forall r | 0 <= r < PRIORITIES :: k'.lists[r] == Without(k.lists[r], t) + if r == p then [t] else []
    ensures HeadsBest(k', t) <==> NobodyElse(k, t, p)
  {
    hide Without;
    if NobodyElse(k, t, p) {
      assert k'.lists[p] == [t];
    }
    if HeadsBest(k', t) {
      var q :| 0 <= q < PRIORITIES && k'.lists[q] != [] && k'.lists[q][0] == t && forall r | 0 <= r < q :: k'.lists[r] == [];
      assert t in k'.lists[q];
      assert q == p;
    }
  }

  lemma AwayFrom(k: State, t: nat)
    requires Inv(k)
    ensures forall r | 0 <= r < |k.lists| :: t !in Without(k.lists[r], t)
  {
    forall r | 0 <= r < |k.lists| ensures t !in Without(k.lists[r], t) {
      assert ListOk(k.lists[r], r, k.link);
      WithoutMembers(k.lists[r], t);
    }
  }

  /** After a release without waiters the caller is still the task that should run
      exactly when its priority did not change, or nobody else is ready at the saved
      priority or better: one task of just the saved priority is enough, since the
      caller joins the end of that list. */
  lemma StillHeadsBest(y: System, m: nat)
    requires Sound(y) && PostRet(y, m).Released? && HeadsBest(y.k, y.k.run)
    ensures y.k.run < |y.k.tcb| && y.cells[m].saved < PRIORITIES <= |y.k.lists|
    ensures var k' := AfterPost(y, m).k;
      && k'.run == y.k.run
      && (HeadsBest(k', k'.run) <==> y.cells[m].saved == y.k.tcb[y.k.run].prio || NobodyElse(y.k, y.k.run, y.cells[m].saved))
  {
    RunnerPlace(y.k, 0);
    var p := y.cells[m].saved;
    AwayFrom(y.k, y.k.run);
    hide Inv, M.Ok, HeadsBest, NobodyElse;
    if y.k.tcb[y.k.run].prio != p {
      RunnerMoves(y.k, p);
      MovedHeads(y.k, SetPrio(y.k, y.k.run, p), y.k.run, p);
    }
  }

  /** The post leaves its caller running, with the scheduler unlocked, while `w` is ready
      at a better priority. */
  ghost predicate Outranked(y: System, m: nat, w: nat) {
    && Sound(y) && HeadsBest(y.k, y.k.run) && y.k.lock == 0 && PostRet(y, m).Released?
    && (var k' := AfterPost(y, m).k;
        && k'.run == y.k.run && w < |k'.tcb| && k'.run < |k'.tcb|
        && k'.St(w).ready && k'.tcb[w].prio < k'.tcb[k'.run].prio && !HeadsBest(k', k'.run))
  }

  function Ready(running: bool): Status { READY.(running := running) }

  function BoostedKernel(): State {
    State([Tcb(Ready(false), 31), Tcb(Ready(true), 5), Tcb(Ready(false), 7)],
          seq(34, l => if l == 31 then [0] else if l == 5 then [1] else if l == 7 then [2] else []),
          [31, 5, 7], map[], 1, 0, 0, 0)
  }

  lemma BoostedKernelOk()
    ensures Inv(BoostedKernel()) && HeadsBest(BoostedKernel(), 1)
  {
    var k := BoostedKernel();
    forall l | 0 <= l < |k.lists| ensures ListOk(k.lists[l], l, k.link) {
    }
    forall t | 0 <= t < |k.tcb| ensures TaskOk(k, t) {
    }
    assert k.lists[5][0] == 1;
  }

  lemma BoostedOk(y: System)
    requires y == System(BoostedKernel(), [Cell(true, 1, 1, 10, 33)])
    ensures Sound(y)
  {
    hide Inv;
    assert y.k.lists[33] == [];
    BoostedKernelOk();
    assert M.MuxOk(Seen(y).mux[0], 3);
  }

  lemma ReleasedPrios(y: System, m: nat)
    requires Sound(y) && PostRet(y, m).Released?
    ensures var k' := AfterPost(y, m).k;
      |k'.tcb| == |y.k.tcb| && forall x | 0 <= x < |y.k.tcb| ::
        k'.tcb[x].st == y.k.tcb[x].st && k'.tcb[x].prio == if x == y.k.run then y.cells[m].saved else y.k.tcb[x].prio
  {
    RunnerPlace(y.k, 0);
    hide Inv, M.Ok;
  }

  /** It does happen: task 1 runs at priority 5, lent to it by a task that has given up
      waiting; task 2 of priority 7 is ready.  The post puts task 1 back to priority 10,
      and it goes on running. */
  lemma ReadyTaskPassedOver()
    ensures exists y: System, m: nat, w: nat :: Outranked(y, m, w)
  {
    var y := System(BoostedKernel(), [Cell(true, 1, 1, 10, 33)]);
    BoostedOk(y);
    BoostedKernelOk();
    assert y.k.lists[33] == [] && y.k.lists[7] == [2];
    StillHeadsBest(y, 0);
    assert Without(y.k.lists[7], 1) != [];
    assert !NobodyElse(y.k, 1, 10);
    ReleasedPrios(y, 0);
    hide Sound, HeadsBest, Inv, AfterPost, NobodyElse;
    assert Outranked(y, 0, 2);
  }
}
