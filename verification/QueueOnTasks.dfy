/** A message queue on the task manager: osQueueOperate and LOS_QueueDelete as steps of
    the whole kernel, with its wait lists, the wheel and the scheduler, among all other
    calls and ticks.  A woken task is one the kernel has made ready; it goes on when it
    runs. */
module QueueOnTasks {
  import opened Tasks
  import opened Kernel
  import opened WaitLists
  import Q = MsgQueue

  /** The queue's control block with the numbers of its two wait lists.  `ops[t]` is
      what the blocked or woken call of task `t` is about. */
  datatype Sys = Sys(k: State, readList: nat, writeList: nat, inUse: bool, len: nat, size: nat, msgs: seq<Q.Message>,
                     readable: nat, writable: nat, ops: seq<Q.Op>, readGrants: seq<nat>, writeGrants: seq<nat>)

  datatype Call =
    | Operate(op: Q.Op, bufSize: nat, timeout: nat, interrupt: bool)
    | ResumeRead(i: nat)
    | ResumeWrite(i: nat)
    | QueueDelete
    | Other(call: Op)

  ghost function Waiters(l: seq<nat>, ops: seq<Q.Op>): (w: seq<Q.Waiter>)
    requires InRange(l, |ops|)
    ensures |w| == |l| && forall i | 0 <= i < |l| :: w[i] == Q.Waiter(l[i], ops[l[i]])
  {
    seq(|l|, i requires 0 <= i < |l| => Q.Waiter(l[i], ops[l[i]]))
  }

  ghost predicate Shape(y: Sys) {
    && Inv(y.k) && |y.ops| == |y.k.tcb|
    && FIRST_WAIT <= y.readList < |y.k.lists| && FIRST_WAIT <= y.writeList < |y.k.lists| && y.readList != y.writeList
    && AllWait(y.k, y.readList, true) && AllWait(y.k, y.writeList, true)
    && InRange(y.k.lists[y.readList], |y.ops|) && InRange(y.k.lists[y.writeList], |y.ops|)
    && InRange(y.readGrants, |y.ops|) && InRange(y.writeGrants, |y.ops|)
  }

  ghost function Abs(y: Sys): Q.Queue
    requires Shape(y)
  {
    Q.Queue(y.inUse, y.len, y.size, y.msgs, y.readable, y.writable,
            Waiters(y.k.lists[y.readList], y.ops), Waiters(y.k.lists[y.writeList], y.ops), [],
            Waiters(y.readGrants, y.ops), Waiters(y.writeGrants, y.ops))
  }

  ghost predicate Sound(y: Sys) {
    Shape(y) && Q.Ok(Abs(y))
  }

  /** A call that blocks is made by a task that is not inside one already, and not by the
      idle task; a call that does not block may come from anywhere, an interrupt
      included.  A resumption is made by a woken task once it runs; a task that holds a
      grant is not deleted. */
  ghost predicate May(y: Sys, c: Call)
    requires Sound(y)
  {
    match c
    case Operate(op, bufSize, timeout, interrupt) =>
      Ret(y, op, bufSize, timeout, interrupt) == Q.Blocked ==>
        && y.k.run != y.k.idle && !y.k.St(y.k.run).timeout
        && y.k.run !in y.readGrants && y.k.run !in y.writeGrants
    case ResumeRead(i) => i < |y.readGrants| && y.readGrants[i] == y.k.run
    case ResumeWrite(i) => i < |y.writeGrants| && y.writeGrants[i] == y.k.run
    case QueueDelete => true
    case Other(call) =>
      && Foreign(y.k, call, y.readList) && Foreign(y.k, call, y.writeList)
      && (call.OpDelete? ==> call.task !in y.readGrants && call.task !in y.writeGrants)
  }

  // ---------------------------------------------------------------- steps

  /** osTaskWake on the first task of list `l`, then LOS_Schedule. */
  ghost function WakeFirst(k: State, l: nat): (k': State)
    requires Inv(k) && FIRST_WAIT <= l < |k.lists| && AllWait(k, l, true) && k.lists[l] != []
    ensures Inv(k')
  {
    assert k.lists[l][0] in k.lists[l];
    Reschedule(Grant(k, k.lists[l][0], true))
  }

  /** The tail of osQueueOperate. */
  ghost function Complete(y: Sys, op: Q.Op): Sys
    requires Shape(y)
  {
    var y1 := y.(msgs := Q.PerformOn(y.msgs, op));
    if op.Read? then
      if y.k.lists[y.writeList] != [] then
        y1.(k := WakeFirst(y.k, y.writeList), writeGrants := y.writeGrants + [y.k.lists[y.writeList][0]])
      else y1.(writable := y.writable + 1)
    else
      if y.k.lists[y.readList] != [] then
        y1.(k := WakeFirst(y.k, y.readList), readGrants := y.readGrants + [y.k.lists[y.readList][0]])
      else y1.(readable := y.readable + 1)
  }

  ghost function Ret(y: Sys, op: Q.Op, bufSize: nat, timeout: nat, interrupt: bool): Q.Ret
    requires Shape(y)
  {
    var r := Q.CheckRet(op, bufSize, timeout != 0, interrupt);
    if r == Q.Done then Q.CallRet(Abs(y), op, bufSize, timeout != 0, y.k.lock != 0) else r
  }

  /** What the queue sees of the call. */
  ghost function Called(q: Q.Queue, t: nat, op: Q.Op, bufSize: nat, timeout: nat, interrupt: bool, locked: bool): Q.Queue {
    if Q.CheckRet(op, bufSize, timeout != 0, interrupt) == Q.Done then Q.Call(q, t, op, bufSize, timeout != 0, locked) else q
  }

  ghost function ListOf(y: Sys, op: Q.Op): nat {
    if op.Read? then y.readList else y.writeList
  }

  ghost function AfterOperate(y: Sys, op: Q.Op, bufSize: nat, timeout: nat, interrupt: bool): Sys
    requires Sound(y) && May(y, Operate(op, bufSize, timeout, interrupt))
  {
    match Ret(y, op, bufSize, timeout, interrupt)
    case Done => Complete(if op.Read? then y.(readable := y.readable - 1) else y.(writable := y.writable - 1), op)
    case Blocked => y.(k := Block(y.k, ListOf(y, op), true, timeout), ops := y.ops[y.k.run := op])
    case _ => y
  }

  lemma DropInRange(l: seq<nat>, i: nat, n: nat)
    requires InRange(l, n) && i < |l|
    ensures InRange(Drop(l, i), n) && l[i] < n
  {
  }

  ghost function After(y: Sys, c: Call): Sys
    requires Sound(y) && May(y, c)
  {
    match c
    case Operate(op, bufSize, timeout, interrupt) => AfterOperate(y, op, bufSize, timeout, interrupt)
    case ResumeRead(i) =>
      DropInRange(y.readGrants, i, |y.ops|);
      Complete(y.(readGrants := Drop(y.readGrants, i)), y.ops[y.readGrants[i]])
    case ResumeWrite(i) =>
      DropInRange(y.writeGrants, i, |y.ops|);
      Complete(y.(writeGrants := Drop(y.writeGrants, i)), y.ops[y.writeGrants[i]])
    case QueueDelete => if Q.DeleteRet(Abs(y)) == Q.Done then y.(inUse := false) else y
    case Other(call) => y.(k := Apply(y.k, call))
  }

  // ---------------------------------------------------------------- refinement

  lemma WakeLists(k: State, l: nat, other: nat)
    requires Inv(k) && FIRST_WAIT <= l < |k.lists| && AllWait(k, l, true) && k.lists[l] != []
    requires FIRST_WAIT <= other < |k.lists| && other != l && AllWait(k, other, true)
    ensures var k' := WakeFirst(k, l);
      && |k'.tcb| == |k.tcb| && |k'.lists| == |k.lists|
      && k'.lists[l] == k.lists[l][1..] && k'.lists[other] == k.lists[other]
      && AllWait(k', l, true) && AllWait(k', other, true)
  {
    hide Grant, Reschedule, HeadsBest, Base;
    var t := k.lists[l][0];
    assert t in k.lists[l];
    Member(k, l, t);
    InvDistinct(k, l);
    var k1 := Grant(k, t, true);
    var k' := Reschedule(k1);
    assert Without(k.lists[l], t) == k.lists[l][1..];
    forall x <- k'.lists[l] ensures x < |k'.tcb| && !k'.tcb[x].st.pend && k'.tcb[x].st.pendQueue {
      assert x in k.lists[l] && x != t;
      assert SameWait(k, k1, x) && SameWait(k1, k', x);
    }
    forall x <- k'.lists[other] ensures x < |k'.tcb| && !k'.tcb[x].st.pend && k'.tcb[x].st.pendQueue {
      Member(k, other, x);
      assert SameWait(k, k1, x) && SameWait(k1, k', x);
    }
  }

  lemma WaitersTail(l: seq<nat>, ops: seq<Q.Op>)
    requires InRange(l, |ops|) && l != []
    ensures l[0] < |ops| && InRange(l[1..], |ops|) && Waiters(l[1..], ops) == Waiters(l, ops)[1..]
    ensures Waiters(l, ops)[0] == Q.Waiter(l[0], ops[l[0]])
  {
  }

  lemma WaitersSnoc(l: seq<nat>, t: nat, ops: seq<Q.Op>)
    requires InRange(l, |ops|) && t < |ops|
    ensures InRange(l + [t], |ops|) && Waiters(l + [t], ops) == Waiters(l, ops) + [Q.Waiter(t, ops[t])]
  {
  }

  lemma WaitersElsewhere(l: seq<nat>, t: nat, op: Q.Op, ops: seq<Q.Op>)
    requires InRange(l, |ops|) && t < |ops| && t !in l
    ensures Waiters(l, ops[t := op]) == Waiters(l, ops)
  {
    forall i | 0 <= i < |l| ensures Waiters(l, ops[t := op])[i] == Waiters(l, ops)[i] {
      assert l[i] in l;
    }
  }

  lemma CompleteAbs(y: Sys, op: Q.Op)
    requires Shape(y)
    ensures Shape(Complete(y, op)) && Abs(Complete(y, op)) == Q.Complete(Abs(y), op)
  {
    hide Inv, AllWait, Waiters, InRange, WakeFirst, Q.PerformOn;
    var y' := Complete(y, op);
    if op.Read? && y.k.lists[y.writeList] != [] {
      WakeLists(y.k, y.writeList, y.readList);
      WaitersTail(y.k.lists[y.writeList], y.ops);
      WaitersSnoc(y.writeGrants, y.k.lists[y.writeList][0], y.ops);
    } else if !op.Read? && y.k.lists[y.readList] != [] {
      WakeLists(y.k, y.readList, y.writeList);
      WaitersTail(y.k.lists[y.readList], y.ops);
      WaitersSnoc(y.readGrants, y.k.lists[y.readList][0], y.ops);
    }
  }

  lemma BlockKeepsLists(k: State, l: nat, other: nat, timeout: nat)
    requires Inv(k) && k.lock == 0 && k.run != k.idle && !k.St(k.run).timeout && 0 < timeout
    requires FIRST_WAIT <= l < |k.lists| && FIRST_WAIT <= other < |k.lists| && l != other && AllWait(k, l, true) && AllWait(k, other, true)
    ensures var k' := Block(k, l, true, timeout);
      && |k'.tcb| == |k.tcb| && |k'.lists| == |k.lists| && k'.lists[l] == k.lists[l] + [k.run] && k'.lists[other] == k.lists[other]
      && AllWait(k', l, true) && AllWait(k', other, true)
  {
    RunnerNotIn(k, l);
    RunnerNotIn(k, other);
    hide Block, HeadsBest, Inv;
    var k' := Block(k, l, true, timeout);
    forall x <- k'.lists[l] ensures x < |k'.tcb| && !k'.tcb[x].st.pend && k'.tcb[x].st.pendQueue {
      if x != k.run {
        assert x in k.lists[l] && SameWait(k, k', x);
      }
    }
    forall x <- k'.lists[other] ensures x < |k'.tcb| && !k'.tcb[x].st.pend && k'.tcb[x].st.pendQueue {
      assert x in k.lists[other] && SameWait(k, k', x);
    }
  }

  lemma BlockedAbs(y: Sys, op: Q.Op, bufSize: nat, timeout: nat, interrupt: bool)
    requires Sound(y) && May(y, Operate(op, bufSize, timeout, interrupt)) && Ret(y, op, bufSize, timeout, interrupt) == Q.Blocked
    ensures var y' := AfterOperate(y, op, bufSize, timeout, interrupt);
      Shape(y') && Abs(y') == Called(Abs(y), y.k.run, op, bufSize, timeout, interrupt, y.k.lock != 0)
  {
    hide Inv, AllWait, Waiters, InRange, Block, Q.Ok;
    var l := ListOf(y, op);
    var other := if op.Read? then y.writeList else y.readList;
    RunnerNotIn(y.k, l);
    RunnerNotIn(y.k, other);
    BlockKeepsLists(y.k, l, other, timeout);
    WaitersElsewhere(y.k.lists[l], y.k.run, op, y.ops);
    WaitersElsewhere(y.k.lists[other], y.k.run, op, y.ops);
    WaitersElsewhere(y.readGrants, y.k.run, op, y.ops);
    WaitersElsewhere(y.writeGrants, y.k.run, op, y.ops);
    WaitersSnoc(y.k.lists[l], y.k.run, y.ops[y.k.run := op]);
  }

  lemma OperateRefines(y: Sys, op: Q.Op, bufSize: nat, timeout: nat, interrupt: bool)
    requires Sound(y) && May(y, Operate(op, bufSize, timeout, interrupt))
    ensures var y' := AfterOperate(y, op, bufSize, timeout, interrupt);
      Sound(y') && Abs(y') == Called(Abs(y), y.k.run, op, bufSize, timeout, interrupt, y.k.lock != 0)
  {
    hide Inv, AllWait, Waiters, InRange, Block, Complete, Q.Ok, Q.Complete, Q.CallRet, Q.Call;
    if Q.CheckRet(op, bufSize, timeout != 0, interrupt) == Q.Done {
      Q.CallOk(Abs(y), y.k.run, op, bufSize, timeout != 0, y.k.lock != 0);
    }
    if Ret(y, op, bufSize, timeout, interrupt) == Q.Blocked {
      BlockedAbs(y, op, bufSize, timeout, interrupt);
    } else if Ret(y, op, bufSize, timeout, interrupt) == Q.Done {
      DoneAbs(y, op, bufSize, timeout, interrupt);
    } else {
      RefusedAbs(y, op, bufSize, timeout, interrupt);
    }
  }

  lemma DoneAbs(y: Sys, op: Q.Op, bufSize: nat, timeout: nat, interrupt: bool)
    requires Sound(y) && May(y, Operate(op, bufSize, timeout, interrupt)) && Ret(y, op, bufSize, timeout, interrupt) == Q.Done
    ensures var y' := AfterOperate(y, op, bufSize, timeout, interrupt);
      Shape(y') && Abs(y') == Called(Abs(y), y.k.run, op, bufSize, timeout, interrupt, y.k.lock != 0)
  {
    hide Inv, AllWait, Waiters, InRange, Complete, Q.Ok, Q.Complete;
    var y1 := if op.Read? then y.(readable := y.readable - 1) else y.(writable := y.writable - 1);
    assert Abs(y1) == Q.Take(Abs(y), op);
    CompleteAbs(y1, op);
  }

  lemma RefusedAbs(y: Sys, op: Q.Op, bufSize: nat, timeout: nat, interrupt: bool)
    requires Sound(y) && May(y, Operate(op, bufSize, timeout, interrupt))
    requires Ret(y, op, bufSize, timeout, interrupt) != Q.Blocked && Ret(y, op, bufSize, timeout, interrupt) != Q.Done
    ensures AfterOperate(y, op, bufSize, timeout, interrupt) == y && Called(Abs(y), y.k.run, op, bufSize, timeout, interrupt, y.k.lock != 0) == Abs(y)
  {
    hide Inv, AllWait, Waiters, InRange, Q.Ok;
  }

  lemma WaitersDrop(l: seq<nat>, i: nat, ops: seq<Q.Op>)
    requires InRange(l, |ops|) && i < |l|
    ensures InRange(Drop(l, i), |ops|) && Waiters(Drop(l, i), ops) == Q.Drop(Waiters(l, ops), i)
  {
    DropInRange(l, i, |ops|);
    var w := Waiters(Drop(l, i), ops);
    forall j | 0 <= j < |w| ensures w[j] == Q.Drop(Waiters(l, ops), i)[j] {
      assert Drop(l, i)[j] == l[if j < i then j else j + 1];
    }
  }

  lemma ResumeRefines(y: Sys, c: Call)
    requires Sound(y) && May(y, c) && (c.ResumeRead? || c.ResumeWrite?)
    ensures Sound(After(y, c))
    ensures c.ResumeRead? ==> c.i < |Abs(y).readGrants| && Abs(After(y, c)) == Q.ResumeRead(Abs(y), c.i)
    ensures c.ResumeWrite? ==> c.i < |Abs(y).writeGrants| && Abs(After(y, c)) == Q.ResumeWrite(Abs(y), c.i)
  {
    hide Inv, AllWait, Waiters, InRange, Complete, Q.Ok, Q.Complete;
    if c.ResumeRead? {
      DropInRange(y.readGrants, c.i, |y.ops|);
      Q.ResumeReadOk(Abs(y), c.i);
      WaitersDrop(y.readGrants, c.i, y.ops);
      CompleteAbs(y.(readGrants := Drop(y.readGrants, c.i)), y.ops[y.readGrants[c.i]]);
    } else {
      DropInRange(y.writeGrants, c.i, |y.ops|);
      Q.ResumeWriteOk(Abs(y), c.i);
      WaitersDrop(y.writeGrants, c.i, y.ops);
      CompleteAbs(y.(writeGrants := Drop(y.writeGrants, c.i)), y.ops[y.writeGrants[c.i]]);
    }
  }

  /** The same queue, with some waiters gone. */
  ghost predicate LosesWaiters(y: Sys, y': Sys)
    requires Shape(y) && Shape(y')
  {
    && y' == y.(k := y'.k)
    && Thinner(y.k.lists[y.readList], y'.k.lists[y.readList]) && Thinner(y.k.lists[y.writeList], y'.k.lists[y.writeList])
  }

  lemma SubWaiters(l: seq<nat>, l': seq<nat>, ops: seq<Q.Op>, size: nat)
    requires InRange(l, |ops|) && Thinner(l, l')
    ensures InRange(l', |ops|)
    ensures Q.AllReads(Waiters(l, ops)) ==> Q.AllReads(Waiters(l', ops))
    ensures Q.WritesFit(Waiters(l, ops), size) ==> Q.WritesFit(Waiters(l', ops), size)
    ensures l == [] ==> l' == []
  {
    ThinnerMeans(l, l');
    forall i | 0 <= i < |l'| ensures l'[i] < |ops| {
      assert l'[i] in l;
    }
    forall w <- Waiters(l', ops) ensures w in Waiters(l, ops) {
      var i :| 0 <= i < |l'| && Waiters(l', ops)[i] == w;
      assert l'[i] in l;
      var j :| 0 <= j < |l| && l[j] == l'[i];
      assert Waiters(l, ops)[j] == w;
    }
    if l' != [] {
      assert l'[0] in l;
    }
  }

  lemma OtherList(k: State, call: Op, l: nat)
    requires Foreign(k, call, l) && AllWait(k, l, true)
    ensures Inv(k) && Enabled(k, call) && l < |k.lists|
    ensures l < |Apply(k, call).lists| && Thinner(k.lists[l], Apply(k, call).lists[l]) && AllWait(Apply(k, call), l, true)
  {
    hide Inv, Enabled, Apply, AllWait;
    var gone := ForeignOnlyDrops(k, call, l);
    IsThinner(k.lists[l], Apply(k, call).lists[l], gone);
    ForeignKeepsWaiting(k, call, l, true);
  }

  lemma FewerWaiters(y: Sys, k': State)
    requires Sound(y) && Inv(k') && |k'.tcb| == |y.k.tcb| && |k'.lists| == |y.k.lists|
    requires Thinner(y.k.lists[y.readList], k'.lists[y.readList]) && Thinner(y.k.lists[y.writeList], k'.lists[y.writeList])
    requires AllWait(k', y.readList, true) && AllWait(k', y.writeList, true)
    ensures Sound(y.(k := k')) && LosesWaiters(y, y.(k := k'))
  {
    hide Inv, AllWait, Waiters, InRange, Thinner, Q.AllReads, Q.WritesFit;
    SubWaiters(y.k.lists[y.readList], k'.lists[y.readList], y.ops, y.size);
    SubWaiters(y.k.lists[y.writeList], k'.lists[y.writeList], y.ops, y.size);
  }

  lemma OtherKeeps(y: Sys, call: Op)
    requires Sound(y) && May(y, Other(call))
    ensures Sound(After(y, Other(call))) && LosesWaiters(y, After(y, Other(call)))
  {
    hide Inv, AllWait, Waiters, InRange, Apply, Thinner, Foreign, Enabled, Q.Ok;
    OtherList(y.k, call, y.readList);
    OtherList(y.k, call, y.writeList);
    SizesKept(y.k, call);
    FewerWaiters(y, Apply(y.k, call));
  }

  lemma IsThinner(l: seq<nat>, l': seq<nat>, gone: seq<nat>)
    requires l' == Drops(l, gone)
    ensures Thinner(l, l')
  {
  }

  /** Every step of the running system is, for the queue, a step as `MsgQueue` defines
      it, or takes some waiters out of its lists. */
  lemma StepRefines(y: Sys, c: Call)
    requires Sound(y) && May(y, c)
    ensures var y' := After(y, c);
      && Sound(y')
      && match c
         case Operate(op, bufSize, timeout, interrupt) => Abs(y') == Called(Abs(y), y.k.run, op, bufSize, timeout, interrupt, y.k.lock != 0)
         case ResumeRead(i) => Abs(y') == Q.ResumeRead(Abs(y), i)
         case ResumeWrite(i) => Abs(y') == Q.ResumeWrite(Abs(y), i)
         case QueueDelete => Abs(y') == Q.Next(Abs(y), Q.EvDelete)
         case Other(call) => LosesWaiters(y, y')
  {
    match c
    case Operate(op, bufSize, timeout, interrupt) => OperateRefines(y, op, bufSize, timeout, interrupt);
    case ResumeRead(_) => ResumeRefines(y, c);
    case ResumeWrite(_) => ResumeRefines(y, c);
    case QueueDelete =>
      hide Inv, AllWait, Waiters;
      Q.LeaveOk(Abs(y), Q.EvDelete);
    case Other(call) => OtherKeeps(y, call);
  }

  // ---------------------------------------------------------------- runs

  ghost predicate StepTo(y: Sys, c: Call, y': Sys) {
    Sound(y) && May(y, c) && y' == After(y, c)
  }

  ghost predicate IsRun(states: seq<Sys>, calls: seq<Call>) {
    && |states| == |calls| + 1 && Sound(states[0])
    && forall i | 0 <= i < |calls| :: StepTo(states[i], calls[i], states[i + 1])
  }

  /** In every state the running system reaches: messages in the ring = readable count +
      readers woken but not resumed, free slots = writable count + writers woken but
      not resumed, and a task sits in a wait list of the kernel only while the counter
      it waits for is 0. */
  lemma {:induction false} CountersTellTheTruth(states: seq<Sys>, calls: seq<Call>, n: nat)
    requires IsRun(states, calls) && n <= |calls|
    ensures Sound(states[n])
    ensures states[n].inUse ==>
              var y := states[n];
              && |y.msgs| == y.readable + |y.readGrants|
              && y.len == |y.msgs| + y.writable + |y.writeGrants|
              && (y.k.lists[y.readList] != [] ==> y.readable == 0)
              && (y.k.lists[y.writeList] != [] ==> y.writable == 0)
  {
    hide Sound, After, May, Shape;
    if n > 0 {
      CountersTellTheTruth(states, calls, n - 1);
      assert StepTo(states[n - 1], calls[n - 1], states[n - 1 + 1]);
      StepRefines(states[n - 1], calls[n - 1]);
    }
    TruthOf(states[n]);
  }

  lemma TruthOf(y: Sys)
    requires Sound(y)
    ensures y.readList < |y.k.lists| && y.writeList < |y.k.lists|
    ensures y.inUse ==>
              && |y.msgs| == y.readable + |y.readGrants|
              && y.len == |y.msgs| + y.writable + |y.writeGrants|
              && (y.k.lists[y.readList] != [] ==> y.readable == 0)
              && (y.k.lists[y.writeList] != [] ==> y.writable == 0)
  {
    hide Inv, AllWait;
  }

  /** What the caller of a read sees in the running system, field by field: a message that
      is there is its answer at once, whatever the timeout and the lock, and a writer
      waiting in the kernel list is woken for the free slot; otherwise it is refused or
      joins the kernel's list of readers with its timeout on the wheel. */
  lemma ReadAnswers(y: Sys, bufSize: nat, timeout: nat, interrupt: bool)
    requires Sound(y) && May(y, Operate(Q.Read, bufSize, timeout, interrupt))
    requires y.inUse && 0 < bufSize && y.size <= bufSize + Q.TRAILER
    ensures y.readable > 0 ==> y.msgs != []
    ensures var r, y', writers := Ret(y, Q.Read, bufSize, timeout, interrupt), After(y, Operate(Q.Read, bufSize, timeout, interrupt)), y.k.lists[y.writeList];
      if timeout != 0 && interrupt then r == Q.InInterrupt && y' == y
      else if y.readable > 0 then
        && r == Q.Done && y'.msgs == y.msgs[1..] && y'.readable == y.readable - 1
        && (if writers == [] then y'.k == y.k && y'.writable == y.writable + 1 && y'.writeGrants == y.writeGrants
            else Woken(y.k, y'.k, y.writeList) && y'.writable == y.writable && y'.writeGrants == y.writeGrants + [writers[0]])
      else if timeout == 0 then r == Q.IsEmpty && y' == y
      else if y.k.lock != 0 then r == Q.PendInLock && y' == y
      else r == Q.Blocked && y' == y.(k := y'.k, ops := y'.ops) && Waits(y, y', y.readList, Q.Read, timeout)
  {
    hide Inv, AllWait, Waiters, InRange, WakeFirst, Block;
    if y.k.lists[y.writeList] != [] {
      WakesFirst(y.k, y.writeList);
    }
  }

  /** The same for a write at either end. */
  lemma WriteAnswers(y: Sys, op: Q.Op, timeout: nat, interrupt: bool)
    requires Sound(y) && May(y, Operate(op, 0, timeout, interrupt)) && !op.Read?
    requires y.inUse && 0 < |op.data| && |op.data| + Q.TRAILER <= y.size
    ensures var r, y', readers := Ret(y, op, 0, timeout, interrupt), After(y, Operate(op, 0, timeout, interrupt)), y.k.lists[y.readList];
      if timeout != 0 && interrupt then r == Q.InInterrupt && y' == y
      else if y.writable > 0 then
        && r == Q.Done && y'.writable == y.writable - 1
        && y'.msgs == (if op.WriteTail? then y.msgs + [op.data] else [op.data] + y.msgs)
        && (if readers == [] then y'.k == y.k && y'.readable == y.readable + 1 && y'.readGrants == y.readGrants
            else Woken(y.k, y'.k, y.readList) && y'.readable == y.readable && y'.readGrants == y.readGrants + [readers[0]])
      else if timeout == 0 then r == Q.IsFull && y' == y
      else if y.k.lock != 0 then r == Q.PendInLock && y' == y
      else r == Q.Blocked && y' == y.(k := y'.k, ops := y'.ops) && Waits(y, y', y.writeList, op, timeout)
  {
    hide Inv, AllWait, Waiters, InRange, WakeFirst, Block;
    if y.k.lists[y.readList] != [] {
      WakesFirst(y.k, y.readList);
    }
  }

  /** The first task of list `l` has been woken: it has left the list and waits for
      nothing, and with the scheduler unlocked the best ready task runs. */
  ghost predicate Woken(k: State, k': State, l: nat) {
    && l < |k.lists| && k.lists[l] != [] && l < |k'.lists| && k'.lists[l] == k.lists[l][1..]
    && NotWaiting(k', k.lists[l][0]) && (k.lock == 0 ==> HeadsBest(k', k'.run))
  }

  lemma WakesFirst(k: State, l: nat)
    requires Inv(k) && FIRST_WAIT <= l < |k.lists| && AllWait(k, l, true) && k.lists[l] != []
    ensures Woken(k, WakeFirst(k, l), l)
  {
    hide Inv, Grant, Reschedule, HeadsBest;
    var t := k.lists[l][0];
    assert t in k.lists[l];
    Member(k, l, t);
    var k1 := Grant(k, t, true);
    GrantKeepsLock(k, t);
    assert Without(k.lists[l], t) == k.lists[l][1..];
    assert SameWait(k1, Reschedule(k1), t);
  }

  lemma GrantKeepsLock(k: State, t: nat)
    requires Inv(k) && t < |k.tcb| && k.St(t).pendQueue
    ensures Grant(k, t, true).lock == k.lock && InvBeforeSchedule(Grant(k, t, true))
  {
  }

  /** The caller is last in list `l` of the kernel, with `op` as its request and its
      timeout on the wheel, and the best ready task runs. */
  ghost predicate Waits(y: Sys, y': Sys, l: nat, op: Q.Op, timeout: nat) {
    && l < |y.k.lists| && l < |y'.k.lists| && y'.k.lists[l] == y.k.lists[l] + [y.k.run]
    && WaitsIn(y'.k, y.k.run, l, true, timeout) && HeadsBest(y'.k, y'.k.run)
    && y.k.run < |y'.ops| && y'.ops[y.k.run] == op
  }

  /** A call with no wait may be made in any state and from anywhere: by the idle task,
      by a task just woken, from an interrupt as when a timer expires.  It never
      blocks, and what is written goes to the queue if a slot is free. */
  lemma NoWaitAlwaysAllowed(y: Sys, op: Q.Op, bufSize: nat, interrupt: bool)
    requires Sound(y) && !op.Read? && y.inUse && 0 < |op.data| && |op.data| + Q.TRAILER <= y.size
    ensures May(y, Operate(op, bufSize, 0, interrupt))
    ensures var y' := After(y, Operate(op, bufSize, 0, interrupt));
      && Sound(y')
      && y'.msgs == (if y.writable == 0 then y.msgs else if op.WriteTail? then y.msgs + [op.data] else [op.data] + y.msgs)
      && (y.writable == 0 ==> y' == y)
  {
    StepRefines(y, Operate(op, bufSize, 0, interrupt));
    hide Inv, AllWait, Waiters, InRange, Q.Ok, WakeFirst;
  }

  /** A woken task never resumes on a dead queue, and finds what it was woken for. */
  lemma ResumesOnLiveQueue(y: Sys, c: Call)
    requires Sound(y) && May(y, c) && (c.ResumeRead? || c.ResumeWrite?)
    ensures y.inUse && (if c.ResumeRead? then y.msgs != [] else |y.msgs| < y.len)
  {
    hide Inv, AllWait;
    assert c.ResumeRead? ==> |Abs(y).readGrants| > 0;
    assert c.ResumeWrite? ==> |Abs(y).writeGrants| > 0;
  }
}
