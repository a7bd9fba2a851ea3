/** A priority once set: LOS_TaskPriSet on any task, ready or not, decides which ready list
    the task joins whenever it becomes ready later. */
module Priorities {
  import opened Tasks
  import opened Kernel
  import opened TaskCalls
  import opened TaskAnswers
  import M = MuxOnTasks
  import Wheel = TaskWheel

  /** The step sets the priority of task `t`, or deletes `t`. */
  predicate Names(op: Op, t: nat) {
    (op.OpSetPrio? || op.OpPriSet? || op.OpDelete?) && op.task == t
  }

  ghost predicate Alive(s: State, t: nat, prio: nat) {
    t < |s.tcb| && !s.St(t).unused && s.tcb[t].prio == prio
  }

  lemma StaysUsed(s: State, op: Op, t: nat)
    requires Inv(s) && Enabled(s, op) && t < |s.tcb| && !s.St(t).unused && !Names(op, t)
    ensures t < |Apply(s, op).tcb| && !Apply(s, op).St(t).unused
  {
    hide Block, Grant, Scan, Reschedule, Suspend, Resume, Yield, Delay, PriSet, SetPrio, Unlock, Create, Delete, ClearTimeout, HeadsBest, Without;
    if op.OpTick? {
      ScanEffect(s, op.released);
      assert t in op.released ==> Released(s, Apply(s, op), t);
      assert t !in op.released ==> SameWait(s.(wheel := Wheel.TickDown(s.wheel)), Apply(s, op), t);
    } else if op.OpGrant? && op.task == t {
      GrantDoes(s, t, op.queue);
    } else if op.OpDelay? && s.run == t {
      DelayedUsed(s, op.ticks);
    } else if op.OpClearTimeout? && s.run == t {
      ClearTimeoutAnswers(s);
    } else if !(op.OpBlock? && s.run == t) {
      OtherStepKept(s, op, t);
    }
  }

  lemma DelayedUsed(s: State, ticks: nat)
    requires Inv(s) && s.run != s.idle && !s.St(s.run).timeout && !s.St(s.run).unused
    ensures s.run < |Delay(s, ticks).tcb| && !Delay(s, ticks).St(s.run).unused
  {
    DelayAnswers(s, ticks);
    YieldAnswers(s);
    hide Inv, Delay, Yield, Without, ListsAre, WaitsKept, HeadsBest;
  }

  lemma StepKeepsPriority(s: State, op: Op, t: nat, prio: nat)
    requires Inv(s) && Enabled(s, op) && Alive(s, t, prio) && !Names(op, t)
    ensures Alive(Apply(s, op), t, prio)
  {
    StaysUsed(s, op, t);
    hide Inv, Apply, PriSet, SetPrio, Create, Without, ListsAre, WaitsKept, HeadsBest;
    if M.KeepsPrio(op) {
      M.OpPrios(s, op);
    } else {
      OtherKeepsPriority(s, op, t);
    }
  }

  lemma OtherKeepsPriority(s: State, op: Op, t: nat)
    requires Inv(s) && Enabled(s, op) && t < |s.tcb| && !s.St(t).unused && !Names(op, t) && !M.KeepsPrio(op)
    ensures t < |Apply(s, op).tcb| && Apply(s, op).tcb[t].prio == s.tcb[t].prio
  {
    hide Inv, PriSet, SetPrio, Create, Without, WaitsKept, HeadsBest;
    if op.OpSetPrio? {
      AfterSetPrio(s, op.task, op.prio, t);
    } else if op.OpPriSet? {
      AfterPriSet(s, op.task, op.prio, t);
    } else {
      AfterCreate(s, op.prio, op.idleEntry, op.memory, t);
    }
  }

  lemma AfterSetPrio(s: State, u: nat, prio: nat, t: nat)
    requires Inv(s) && u < |s.tcb| && t < |s.tcb| && t != u && prio < PRIORITIES
    ensures var s' := SetPrio(s, u, prio);
      t < |s'.tcb| && s'.tcb[t].prio == s.tcb[t].prio
  {
    hide Inv, SetPrio, Without, ListsAre, Becomes, WaitsKept;
    SetPrioDoes(s, u, prio);
  }

  lemma AfterPriSet(s: State, u: nat, prio: nat, t: nat)
    requires Inv(s) && t < |s.tcb| && t != u
    ensures var s' := PriSet(s, u, prio);
      t < |s'.tcb| && s'.tcb[t].prio == s.tcb[t].prio
  {
    hide Inv, PriSet, Without, ListsAre, Becomes, WaitsKept, HeadsBest, Runner;
    PriSetAnswers(s, u, prio);
  }

  lemma AfterCreate(s: State, prio: nat, idleEntry: bool, memory: bool, t: nat)
    requires Inv(s) && t < |s.tcb| && !s.St(t).unused
    ensures var s' := Create(s, prio, idleEntry, memory);
      t < |s'.tcb| && s'.tcb[t].prio == s.tcb[t].prio
  {
    hide Inv, Create, ListsAre, Becomes, WaitsKept, HeadsBest, Runner;
    CreateAnswers(s, prio, idleEntry, memory);
    FreeIsUnused(s);
  }

  lemma FreeIsUnused(s: State)
    requires Inv(s)
    ensures FREE < |s.lists| && forall x <- s.lists[FREE] :: x < |s.tcb| && s.St(x).unused
  {
    forall x <- s.lists[FREE] ensures x < |s.tcb| && s.St(x).unused {
      assert ListOk(s.lists[FREE], FREE, s.link) && TaskOk(s, x);
    }
  }

  lemma {:induction false} PriorityHolds(states: seq<State>, ops: seq<Op>, t: nat, prio: nat, i: nat, n: nat)
    requires IsRun(states, ops) && i < n <= |ops| && ops[i] == OpPriSet(t, prio) && Inv(states[i])
    requires PriSetRet(states[i], t, prio) == Ok
    requires forall j | i < j < n :: !Names(ops[j], t)
    ensures Inv(states[n]) && Alive(states[n], t, prio)
    decreases n
  {
    hide Inv, Apply, Enabled, Alive;
    assert StepTo(states[n - 1], ops[n - 1], states[n - 1 + 1]);
    if n == i + 1 {
      SetAlive(states[i], t, prio);
    } else {
      PriorityHolds(states, ops, t, prio, i, n - 1);
      StepKeepsPriority(states[n - 1], ops[n - 1], t, prio);
    }
  }

  lemma SetAlive(s: State, t: nat, prio: nat)
    requires Inv(s) && PriSetRet(s, t, prio) == Ok
    ensures Enabled(s, OpPriSet(t, prio)) && Alive(Apply(s, OpPriSet(t, prio)), t, prio)
  {
    hide Inv, PriSet, Without, ListsAre, Others, Runner, WaitsKept, HeadsBest, Block, Grant, Scan, Suspend, Resume, Yield, Delay, Unlock, Create, Delete;
    PriSetAnswers(s, t, prio);
  }

  /** Over any run: a task whose priority was set, in whatever state it was then, is put
      last in the ready list of that priority by a later wake-up, unless its priority is
      set again or it is deleted before, or it is suspended. */
  lemma WokenAtSetPriority(states: seq<State>, ops: seq<Op>, t: nat, prio: nat, i: nat, n: nat)
    requires IsRun(states, ops) && i < n < |ops| && ops[i] == OpPriSet(t, prio) && Inv(states[i])
    requires PriSetRet(states[i], t, prio) == Ok
    requires forall j | i < j < n :: !Names(ops[j], t)
    requires ops[n].OpGrant? && ops[n].task == t
    ensures Inv(states[n]) && t < |states[n].tcb| && prio < |states[n].lists| && prio < |states[n + 1].lists|
    ensures !states[n].St(t).suspend ==> states[n + 1].lists[prio] == states[n].lists[prio] + [t]
  {
    PriorityHolds(states, ops, t, prio, i, n);
    assert StepTo(states[n], ops[n], states[n + 1]);
    var s := states[n];
    InvTask(s, t);
    GrantDoes(s, t, ops[n].queue);
    hide IsRun, Inv, Grant, Without, Others, Becomes, WaitsKept;
  }
}
