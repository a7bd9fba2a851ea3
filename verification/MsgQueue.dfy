/** The message queue of los_queue.c as a protocol between tasks.  A counter tells how
    many messages may be read, another how many slots may be written; when a task
    waits on a counter, the other side does not raise it but wakes the task, which
    then goes on without looking at the counter again.  Such a task holds a grant
    until it runs. */
module MsgQueue {

  newtype byte = b: int | 0 <= b < 256

  const TRAILER: nat := 4  // sizeof(UINT32), the length behind every message

  type Message = seq<byte>

  datatype Op = Read | WriteTail(data: Message) | WriteHead(data: Message)

  datatype Waiter = Waiter(task: nat, op: Op)

  datatype Queue = Queue(inUse: bool, len: nat, size: nat, msgs: seq<Message>, readable: nat, writable: nat,
                         readers: seq<Waiter>, writers: seq<Waiter>, mail: seq<nat>,
                         readGrants: seq<Waiter>, writeGrants: seq<Waiter>)

  datatype Ret = Done | NotCreate | ReadSizeTooSmall | WriteSizeTooBig | IsEmpty | IsFull | PendInLock | Blocked
    | NotFound | InTskUse | InTskWrite | SizeIsZero | InInterrupt

  predicate Fits(m: Message, size: nat) {
    0 < |m| && |m| + TRAILER <= size
  }

  predicate AllReads(ws: seq<Waiter>) {
    forall w <- ws :: w.op.Read?
  }

  predicate WritesFit(ws: seq<Waiter>, size: nat) {
    forall w <- ws :: !w.op.Read? && Fits(w.op.data, size)
  }

  /** The messages in the ring are those that may be read plus those granted to a
      reader that has not run yet; likewise the free slots.  Nobody waits on a counter
      that is not zero. */
  ghost predicate Live(q: Queue) {
    && 0 < q.len && TRAILER < q.size
    && |q.msgs| == q.readable + |q.readGrants|
    && q.len == |q.msgs| + q.writable + |q.writeGrants|
    && (q.readers != [] ==> q.readable == 0)
    && (q.writers != [] ==> q.writable == 0)
    && AllReads(q.readers) && AllReads(q.readGrants)
    && WritesFit(q.writers, q.size) && WritesFit(q.writeGrants, q.size)
    && (forall m <- q.msgs :: Fits(m, q.size))
  }

  /** Nothing is left behind in a queue that is not in use. */
  ghost predicate Ok(q: Queue) {
    if q.inUse then Live(q)
    else q.readers == [] && q.writers == [] && q.mail == [] && q.readGrants == [] && q.writeGrants == []
  }

  // ---------------------------------------------------------------- the ring as a deque

  function PerformOn(msgs: seq<Message>, op: Op): seq<Message> {
    match op
    case Read => if msgs == [] then [] else msgs[1..]
    case WriteTail(data) => msgs + [data]
    case WriteHead(data) => [data] + msgs
  }

  /** What the operation hands to its caller. */
  function Output(msgs: seq<Message>, op: Op): seq<Message> {
    if op.Read? && msgs != [] then [msgs[0]] else []
  }

  /** The tail of osQueueOperate: the ring operation, then either a waiter of the other
      side is granted what became available or the other counter goes up. */
  function Complete(q: Queue, op: Op): Queue {
    var q1 := q.(msgs := PerformOn(q.msgs, op));
    if op.Read? then
      if q.writers != [] then q1.(writers := q.writers[1..], writeGrants := q.writeGrants + [q.writers[0]])
      else q1.(writable := q.writable + 1)
    else
      if q.readers != [] then q1.(readers := q.readers[1..], readGrants := q.readGrants + [q.readers[0]])
      else q1.(readable := q.readable + 1)
  }

  // ---------------------------------------------------------------- osQueueOperate

  /** osQueueReadParameterCheck and osQueueWriteParameterCheck. */
  function CheckRet(op: Op, bufSize: nat, wait: bool, interrupt: bool): Ret {
    if (if op.Read? then bufSize == 0 else |op.data| == 0) then SizeIsZero
    else if wait && interrupt then InInterrupt
    else Done
  }

  function Available(q: Queue, op: Op): nat {
    if op.Read? then q.readable else q.writable
  }

  /** Up to the point where the call returns or blocks. */
  function CallRet(q: Queue, op: Op, bufSize: nat, wait: bool, locked: bool): Ret {
    if !q.inUse then NotCreate
    else if op.Read? && bufSize + TRAILER < q.size then ReadSizeTooSmall
    else if !op.Read? && q.size < |op.data| + TRAILER then WriteSizeTooBig
    else if 0 < Available(q, op) then Done
    else if !wait then (if op.Read? then IsEmpty else IsFull)
    else if locked then PendInLock
    else Blocked
  }

  function Take(q: Queue, op: Op): Queue
    requires 0 < Available(q, op)
  {
    if op.Read? then q.(readable := q.readable - 1) else q.(writable := q.writable - 1)
  }

  function Call(q: Queue, t: nat, op: Op, bufSize: nat, wait: bool, locked: bool): Queue {
    match CallRet(q, op, bufSize, wait, locked)
    case Done => Complete(Take(q, op), op)
    case Blocked =>
      if op.Read? then q.(readers := q.readers + [Waiter(t, op)]) else q.(writers := q.writers + [Waiter(t, op)])
    case _ => q
  }

  function Drop(ws: seq<Waiter>, i: nat): seq<Waiter>
    requires i < |ws|
  {
    ws[..i] + ws[i + 1..]
  }

  /** A granted task runs: it goes straight to the ring. */
  function ResumeRead(q: Queue, i: nat): Queue
    requires i < |q.readGrants|
  {
    Complete(q.(readGrants := Drop(q.readGrants, i)), q.readGrants[i].op)
  }

  function ResumeWrite(q: Queue, i: nat): Queue
    requires i < |q.writeGrants|
  {
    Complete(q.(writeGrants := Drop(q.writeGrants, i)), q.writeGrants[i].op)
  }

  /** The tick ends the wait of a task: it leaves the list and will report a timeout. */
  function ExpireReader(q: Queue, i: nat): Queue
    requires i < |q.readers|
  {
    q.(readers := Drop(q.readers, i))
  }

  function ExpireWriter(q: Queue, i: nat): Queue
    requires i < |q.writers|
  {
    q.(writers := Drop(q.writers, i))
  }

  // ---------------------------------------------------------------- LOS_QueueDelete

  function DeleteRet(q: Queue): Ret {
    if !q.inUse then NotCreate
    else if q.readers != [] then InTskUse
    else if q.writers != [] then InTskUse
    else if q.mail != [] then InTskUse
    else if q.writable + q.readable != q.len then InTskWrite
    else Done
  }

  /** Deletion succeeds exactly when no task waits and no task holds a grant, so a
      granted task always resumes on the queue it waited on. */
  lemma DeleteSeesGrants(q: Queue)
    requires Ok(q) && q.inUse
    ensures DeleteRet(q) == Done <==>
              q.readers == [] && q.writers == [] && q.mail == [] && q.readGrants == [] && q.writeGrants == []
  {
  }

  // ---------------------------------------------------------------- what a caller sees

  /** A read of a queue in use, field by field.  Whatever the timeout and the scheduler
      lock, it gets the oldest message at once if the counter says there is one, and
      what becomes free goes to the longest waiting writer or to the other counter. */
  lemma ReadAnswers(q: Queue, t: nat, bufSize: nat, wait: bool, locked: bool)
    requires Ok(q) && q.inUse
    ensures q.readable > 0 ==> q.msgs != []
    ensures var r, q' := CallRet(q, Read, bufSize, wait, locked), Call(q, t, Read, bufSize, wait, locked);
      if bufSize + 4 < q.size then r == ReadSizeTooSmall && q' == q
      else if q.readable > 0 then
        && r == Done && Output(q.msgs, Read) == [q.msgs[0]]
        && (q.writers == [] ==> q' == q.(msgs := q.msgs[1..], readable := q.readable - 1, writable := q.writable + 1))
        && (q.writers != [] ==> q' == q.(msgs := q.msgs[1..], readable := q.readable - 1,
                                         writers := q.writers[1..], writeGrants := q.writeGrants + [q.writers[0]]))
      else if !wait then r == IsEmpty && q' == q
      else if locked then r == PendInLock && q' == q
      else r == Blocked && q' == q.(readers := q.readers + [Waiter(t, Read)])
  {
  }

  /** The same for a write at either end. */
  lemma WriteAnswers(q: Queue, t: nat, op: Op, bufSize: nat, wait: bool, locked: bool)
    requires Ok(q) && q.inUse && !op.Read?
    ensures q.writable > 0 ==> |q.msgs| < q.len
    ensures var r, q' := CallRet(q, op, bufSize, wait, locked), Call(q, t, op, bufSize, wait, locked);
      var msgs := if op.WriteTail? then q.msgs + [op.data] else [op.data] + q.msgs;
      if |op.data| + 4 > q.size then r == WriteSizeTooBig && q' == q
      else if q.writable > 0 then
        && r == Done && Output(q.msgs, op) == []
        && (q.readers == [] ==> q' == q.(msgs := msgs, writable := q.writable - 1, readable := q.readable + 1))
        && (q.readers != [] ==> q' == q.(msgs := msgs, writable := q.writable - 1,
                                         readers := q.readers[1..], readGrants := q.readGrants + [q.readers[0]]))
      else if !wait then r == IsFull && q' == q
      else if locked then r == PendInLock && q' == q
      else r == Blocked && q' == q.(writers := q.writers + [Waiter(t, op)])
  {
  }

  /** A woken reader gets the oldest message; its counter was paid when it was woken. */
  lemma ResumeReadAnswers(q: Queue, i: nat)
    requires Ok(q) && i < |q.readGrants|
    ensures q.msgs != []
    ensures var q', grants := ResumeRead(q, i), q.readGrants[..i] + q.readGrants[i + 1..];
      && Output(q.msgs, q.readGrants[i].op) == [q.msgs[0]]
      && (q.writers == [] ==> q' == q.(msgs := q.msgs[1..], readGrants := grants, writable := q.writable + 1))
      && (q.writers != [] ==> q' == q.(msgs := q.msgs[1..], readGrants := grants,
                                       writers := q.writers[1..], writeGrants := q.writeGrants + [q.writers[0]]))
  {
    assert q.readGrants[i] in q.readGrants;
  }

  /** A woken writer stores its own message. */
  lemma ResumeWriteAnswers(q: Queue, i: nat)
    requires Ok(q) && i < |q.writeGrants|
    ensures |q.msgs| < q.len
    ensures var q', grants, op := ResumeWrite(q, i), q.writeGrants[..i] + q.writeGrants[i + 1..], q.writeGrants[i].op;
      && !op.Read?
      && (var msgs := if op.WriteTail? then q.msgs + [op.data] else [op.data] + q.msgs;
          && (q.readers == [] ==> q' == q.(msgs := msgs, writeGrants := grants, readable := q.readable + 1))
          && (q.readers != [] ==> q' == q.(msgs := msgs, writeGrants := grants,
                                           readers := q.readers[1..], readGrants := q.readGrants + [q.readers[0]])))
  {
    assert q.writeGrants[i] in q.writeGrants;
  }

  /** A queue goes away exactly when nobody waits on it and no woken task is still to
      use it; otherwise nothing changes. */
  lemma DeleteAnswers(q: Queue)
    requires Ok(q)
    ensures var r, q' := DeleteRet(q), Next(q, EvDelete);
      if !q.inUse then r == NotCreate && q' == q
      else if q.readers != [] || q.writers != [] || q.mail != [] then r == InTskUse && q' == q
      else if q.readGrants != [] || q.writeGrants != [] then r == InTskWrite && q' == q
      else r == Done && q' == q.(inUse := false)
  {
  }

  /** The checks in front of the operation: no empty buffer, and no waiting in an interrupt. */
  lemma CheckAnswers(op: Op, bufSize: nat, wait: bool, interrupt: bool)
    ensures var size := if op.Read? then bufSize else |op.data|;
      CheckRet(op, bufSize, wait, interrupt) == if size == 0 then SizeIsZero else if interrupt && wait then InInterrupt else Done
  {
  }

  // ---------------------------------------------------------------- steps

  datatype Event =
    | EvCall(task: nat, op: Op, bufSize: nat, wait: bool, locked: bool)
    | EvResumeRead(i: nat)
    | EvResumeWrite(i: nat)
    | EvExpireReader(i: nat)
    | EvExpireWriter(i: nat)
    | EvMailWait(task: nat)
    | EvMailLeave(i: nat)
    | EvDelete

  /** A write has at least one byte, as osQueueWriteParameterCheck makes sure. */
  predicate Enabled(q: Queue, e: Event) {
    match e
    case EvCall(_, op, _, _, _) => op.Read? || 0 < |op.data|
    case EvResumeRead(i) => i < |q.readGrants|
    case EvResumeWrite(i) => i < |q.writeGrants|
    case EvExpireReader(i) => i < |q.readers|
    case EvExpireWriter(i) => i < |q.writers|
    case EvMailWait(_) => q.inUse
    case EvMailLeave(i) => i < |q.mail|
    case EvDelete => true
  }

  function Next(q: Queue, e: Event): Queue
    requires Enabled(q, e)
  {
    match e
    case EvCall(t, op, bufSize, wait, locked) => Call(q, t, op, bufSize, wait, locked)
    case EvResumeRead(i) => ResumeRead(q, i)
    case EvResumeWrite(i) => ResumeWrite(q, i)
    case EvExpireReader(i) => ExpireReader(q, i)
    case EvExpireWriter(i) => ExpireWriter(q, i)
    case EvMailWait(t) => q.(mail := q.mail + [t])
    case EvMailLeave(i) => q.(mail := q.mail[..i] + q.mail[i + 1..])
    case EvDelete => if DeleteRet(q) == Done then q.(inUse := false) else q
  }

  /** The operation whose ring part this step performs, if any. */
  function Performed(q: Queue, e: Event): seq<Op>
    requires Enabled(q, e)
  {
    match e
    case EvCall(_, op, bufSize, wait, locked) => if CallRet(q, op, bufSize, wait, locked) == Done then [op] else []
    case EvResumeRead(i) => [q.readGrants[i].op]
    case EvResumeWrite(i) => [q.writeGrants[i].op]
    case _ => []
  }

  /** Completing an operation whose message or slot has been taken keeps the
      invariant.  In the state in between, the side of `op` has one unit set aside. */
  lemma CompleteOk(q: Queue, op: Op)
    requires q.inUse && 0 < q.len && TRAILER < q.size
    requires |q.msgs| == q.readable + |q.readGrants| + (if op.Read? then 1 else 0)
    requires q.len == |q.msgs| + q.writable + |q.writeGrants| + (if op.Read? then 0 else 1)
    requires q.readers != [] ==> q.readable == 0
    requires q.writers != [] ==> q.writable == 0
    requires AllReads(q.readers) && AllReads(q.readGrants)
    requires WritesFit(q.writers, q.size) && WritesFit(q.writeGrants, q.size) && (op.Read? || Fits(op.data, q.size))
    requires forall m <- q.msgs :: Fits(m, q.size)
    ensures Ok(Complete(q, op)) && Complete(q, op).inUse
  {
    var q' := Complete(q, op);
    assert forall m <- q'.msgs :: m in q.msgs || (!op.Read? && m == op.data);
    assert forall w <- q'.readGrants :: w in q.readGrants || w in q.readers;
    assert forall w <- q'.writeGrants :: w in q.writeGrants || w in q.writers;
  }

  lemma CallOk(q: Queue, t: nat, op: Op, bufSize: nat, wait: bool, locked: bool)
    requires Ok(q) && (op.Read? || 0 < |op.data|)
    ensures Ok(Call(q, t, op, bufSize, wait, locked))
    ensures CallRet(q, op, bufSize, wait, locked) == Done ==> if op.Read? then q.msgs != [] else |q.msgs| < q.len
  {
    if CallRet(q, op, bufSize, wait, locked) == Done {
      CompleteOk(Take(q, op), op);
    }
  }

  lemma ResumeReadOk(q: Queue, i: nat)
    requires Ok(q) && i < |q.readGrants|
    ensures Ok(ResumeRead(q, i)) && q.readGrants[i].op.Read? && q.msgs != []
  {
    assert q.readGrants[i] in q.readGrants;
    CompleteOk(q.(readGrants := Drop(q.readGrants, i)), Read);
  }

  lemma ResumeWriteOk(q: Queue, i: nat)
    requires Ok(q) && i < |q.writeGrants|
    ensures Ok(ResumeWrite(q, i)) && !q.writeGrants[i].op.Read? && |q.msgs| < q.len
  {
    assert q.writeGrants[i] in q.writeGrants;
    CompleteOk(q.(writeGrants := Drop(q.writeGrants, i)), q.writeGrants[i].op);
  }

  lemma DropOk(ws: seq<Waiter>, i: nat, size: nat)
    requires i < |ws|
    ensures AllReads(ws) ==> AllReads(Drop(ws, i))
    ensures WritesFit(ws, size) ==> WritesFit(Drop(ws, i), size)
  {
    assert forall w <- Drop(ws, i) :: w in ws;
  }

  lemma LeaveOk(q: Queue, e: Event)
    requires Ok(q) && Enabled(q, e) && (e.EvExpireReader? || e.EvExpireWriter? || e.EvMailWait? || e.EvMailLeave? || e.EvDelete?)
    ensures Ok(Next(q, e))
  {
    if e.EvExpireReader? {
      DropOk(q.readers, e.i, q.size);
    } else if e.EvExpireWriter? {
      DropOk(q.writers, e.i, q.size);
    } else if e.EvDelete? && q.inUse {
      DeleteSeesGrants(q);
    }
  }

  /** Every step keeps the invariant, and no ring operation finds the ring in the
      wrong state: a read has a message to take, a write a slot to fill. */
  lemma StepOk(q: Queue, e: Event)
    requires Ok(q) && Enabled(q, e)
    ensures Ok(Next(q, e))
    ensures forall op <- Performed(q, e) :: if op.Read? then q.msgs != [] else |q.msgs| < q.len
  {
    hide Ok, Call, ResumeRead, ResumeWrite;
    match e
    case EvCall(t, op, bufSize, wait, locked) => CallOk(q, t, op, bufSize, wait, locked);
    case EvResumeRead(i) => ResumeReadOk(q, i);
    case EvResumeWrite(i) => ResumeWriteOk(q, i);
    case EvExpireReader(_) => LeaveOk(q, e);
    case EvExpireWriter(_) => LeaveOk(q, e);
    case EvMailWait(_) => LeaveOk(q, e);
    case EvMailLeave(_) => LeaveOk(q, e);
    case EvDelete => LeaveOk(q, e);
  }

  /** The ring changes as by the operation the step performs, and only then. */
  lemma StepMessages(q: Queue, e: Event)
    requires Enabled(q, e)
    ensures |Performed(q, e)| <= 1
    ensures Next(q, e).msgs == if Performed(q, e) == [] then q.msgs else PerformOn(q.msgs, Performed(q, e)[0])
  {
  }

  // ---------------------------------------------------------------- runs

  ghost predicate IsRun(states: seq<Queue>, events: seq<Event>) {
    && |states| == |events| + 1
    && forall i | 0 <= i < |events| :: Enabled(states[i], events[i]) && states[i + 1] == Next(states[i], events[i])
  }

  lemma {:induction false} RunKeepsOk(states: seq<Queue>, events: seq<Event>, n: nat)
    requires IsRun(states, events) && Ok(states[0]) && n <= |events|
    ensures Ok(states[n])
  {
    if n > 0 {
      RunKeepsOk(states, events, n - 1);
      StepOk(states[n - 1], events[n - 1]);
    }
  }

  function Out(q: Queue, e: Event): seq<Message>
    requires Enabled(q, e)
  {
    var ops := Performed(q, e);
    if ops == [] then [] else Output(q.msgs, ops[0])
  }

  function In(q: Queue, e: Event): seq<Message>
    requires Enabled(q, e)
  {
    var ops := Performed(q, e);
    if ops == [] || ops[0].Read? then [] else [ops[0].data]
  }

  /** All messages handed to readers in the first `n` steps, in order. */
  function Delivered(states: seq<Queue>, events: seq<Event>, n: nat): seq<Message>
    requires n <= |events| < |states| && forall i | 0 <= i < |events| :: Enabled(states[i], events[i])
  {
    if n == 0 then [] else Delivered(states, events, n - 1) + Out(states[n - 1], events[n - 1])
  }

  /** All messages put into the ring in the first `n` steps, in order. */
  function Accepted(states: seq<Queue>, events: seq<Event>, n: nat): seq<Message>
    requires n <= |events| < |states| && forall i | 0 <= i < |events| :: Enabled(states[i], events[i])
  {
    if n == 0 then [] else Accepted(states, events, n - 1) + In(states[n - 1], events[n - 1])
  }

  lemma StepConserves(q: Queue, e: Event)
    requires Ok(q) && Enabled(q, e)
    ensures multiset(q.msgs) + multiset(In(q, e)) == multiset(Out(q, e)) + multiset(Next(q, e).msgs)
    ensures (forall op <- Performed(q, e) :: !op.WriteHead?) ==> q.msgs + In(q, e) == Out(q, e) + Next(q, e).msgs
  {
    StepOk(q, e);
    StepMessages(q, e);
    hide Ok, Next, Performed, Enabled, PerformOn, Output;
    var ops := Performed(q, e);
    if ops != [] {
      assert ops[0] in ops;
      OperationConserves(q.msgs, ops[0]);
    }
  }

  lemma OperationConserves(msgs: seq<Message>, op: Op)
    requires op.Read? ==> msgs != []
    ensures var i, o := if op.Read? then [] else [op.data], Output(msgs, op);
      && multiset(msgs) + multiset(i) == multiset(o) + multiset(PerformOn(msgs, op))
      && (!op.WriteHead? ==> msgs + i == o + PerformOn(msgs, op))
  {
    if op.Read? {
      assert msgs == [msgs[0]] + msgs[1..];
    }
  }

  lemma Balance(start: seq<Message>, a: seq<Message>, d: seq<Message>, i: seq<Message>, o: seq<Message>, before: seq<Message>, after: seq<Message>)
    requires multiset(start) + multiset(a) == multiset(d) + multiset(before)
    requires multiset(before) + multiset(i) == multiset(o) + multiset(after)
    ensures multiset(start) + multiset(a + i) == multiset(d + o) + multiset(after)
  {
    calc {
      multiset(start) + multiset(a + i);
      (multiset(start) + multiset(a)) + multiset(i);
      multiset(d) + (multiset(before) + multiset(i));
      multiset(d) + (multiset(o) + multiset(after));
      multiset(d + o) + multiset(after);
    }
  }

  /** No message is lost, duplicated or made up, whatever blocks, times out or is
      granted along the way. */
  lemma {:induction false} MessagesConserved(states: seq<Queue>, events: seq<Event>, n: nat)
    requires IsRun(states, events) && Ok(states[0]) && n <= |events|
    ensures multiset(states[0].msgs) + multiset(Accepted(states, events, n))
         == multiset(Delivered(states, events, n)) + multiset(states[n].msgs)
  {
    hide Ok, Next, In, Out;
    if n > 0 {
      MessagesConserved(states, events, n - 1);
      RunKeepsOk(states, events, n - 1);
      StepConserves(states[n - 1], events[n - 1]);
      assert states[n - 1 + 1] == Next(states[n - 1], events[n - 1]);
      var i, o := In(states[n - 1], events[n - 1]), Out(states[n - 1], events[n - 1]);
      var a, d := Accepted(states, events, n - 1), Delivered(states, events, n - 1);
      var before, after := states[n - 1].msgs, states[n].msgs;
      Balance(states[0].msgs, a, d, i, o, before, after);
    }
  }

  /** With writes at the tail only, messages are delivered in the order in which they
      were accepted. */
  lemma {:induction false} FirstInFirstOut(states: seq<Queue>, events: seq<Event>, n: nat)
    requires IsRun(states, events) && Ok(states[0]) && n <= |events|
    requires forall i | 0 <= i < |events| :: TailOnly(states[i], events[i])
    ensures states[0].msgs + Accepted(states, events, n) == Delivered(states, events, n) + states[n].msgs
  {
    hide Ok, Next, In, Out, Performed;
    if n > 0 {
      FirstInFirstOut(states, events, n - 1);
      RunKeepsOk(states, events, n - 1);
      assert TailOnly(states[n - 1], events[n - 1]);
      StepConserves(states[n - 1], events[n - 1]);
      assert states[n - 1 + 1] == Next(states[n - 1], events[n - 1]);
      var i, o := In(states[n - 1], events[n - 1]), Out(states[n - 1], events[n - 1]);
      var a, d := Accepted(states, events, n - 1), Delivered(states, events, n - 1);
      calc {
        states[0].msgs + (a + i);
        (states[0].msgs + a) + i;
        d + (states[n - 1].msgs + i);
        (d + o) + states[n].msgs;
      }
    }
  }

  predicate TailOnly(q: Queue, e: Event) {
    Enabled(q, e) ==> forall op <- Performed(q, e) :: !op.WriteHead?
  }
}
