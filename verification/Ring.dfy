/** The ring of a message queue, byte by byte: `len` slots of `size` bytes, each with
    the message at its start and the message's length in its last four bytes. */
module Ring {
  import opened MsgQueue

  const UINT32_RANGE: nat := 0x1_0000_0000

  /** How a UINT32 lies in memory, lowest byte first. */
  function Le32(n: nat): (s: seq<byte>)
    ensures |s| == TRAILER
  {
    [(n % 256) as byte, (n / 256 % 256) as byte, (n / 65536 % 256) as byte, (n / 16777216 % 256) as byte]
  }

  function FromLe32(s: seq<byte>): nat
    requires |s| == TRAILER
  {
    s[0] as nat + 256 * (s[1] as nat) + 65536 * (s[2] as nat) + 16777216 * (s[3] as nat)
  }

  lemma Le32RoundTrip(n: nat)
    requires n < UINT32_RANGE
    ensures FromLe32(Le32(n)) == n
  {
    assert n == n % 256 + 256 * (n / 256);
    assert n / 256 == n / 256 % 256 + 256 * (n / 65536);
    assert n / 65536 == n / 65536 % 256 + 256 * (n / 16777216);
  }

  /** The slot that is `k` places behind `head`. */
  function At(head: nat, k: nat, len: nat): int {
    if head + k < len then head + k else head + k - len
  }

  function Start(pos: nat, size: nat): nat {
    pos * size
  }

  function Bytes(len: nat, size: nat): nat {
    len * size
  }

  lemma SlotInside(pos: nat, len: nat, size: nat)
    requires pos < len
    ensures Start(pos, size) + size <= Bytes(len, size)
  {
    assert (pos + 1) * size <= len * size by {
      Mul(pos + 1, len, size);
    }
    assert (pos + 1) * size == pos * size + size;
  }

  lemma Mul(a: nat, b: nat, c: nat)
    requires a <= b
    ensures a * c <= b * c
  {
  }

  lemma SlotsApart(p: nat, q: nat, size: nat)
    requires p < q
    ensures Start(p, size) + size <= Start(q, size)
  {
    SlotInside(p, q, size);
  }

  /** Slot `pos` holds message `m`, bytes and length. */
  ghost predicate Holds(b: seq<byte>, pos: nat, size: nat, m: Message) {
    && Fits(m, size) && Start(pos, size) + size <= |b|
    && (forall i | 0 <= i < |m| :: b[Start(pos, size) + i] == m[i])
    && b[Start(pos, size) + size - TRAILER..Start(pos, size) + size] == Le32(|m|)
  }

  /** The ring holds `msgs` in the slots from `head` on, and `tail` is the next free one. */
  ghost predicate RingOk(b: seq<byte>, len: nat, size: nat, head: nat, tail: nat, msgs: seq<Message>) {
    && 0 < len && TRAILER < size && |b| == Bytes(len, size) && head < len && |msgs| <= len
    && tail == At(head, |msgs|, len)
    && (forall k | 0 <= k < |msgs| :: Holds(b, At(head, k, len), size, msgs[k]))
  }

  lemma AtBounds(head: nat, k: nat, len: nat)
    requires head < len && k <= len
    ensures 0 <= At(head, k, len) < len
    ensures k < len ==> (At(head, k, len) == head <==> k == 0)
  {
  }

  lemma HoldsKept(b: seq<byte>, b': seq<byte>, pos: nat, at: nat, size: nat, m: Message)
    requires Holds(b, pos, size, m) && |b| == |b'| && at != pos
    requires forall i | 0 <= i < |b| && !(Start(at, size) <= i < Start(at, size) + size) :: b'[i] == b[i]
    ensures Holds(b', pos, size, m)
  {
    if at < pos {
      SlotsApart(at, pos, size);
    } else {
      SlotsApart(pos, at, size);
    }
  }

  /** Filling the tail slot appends a message and keeps all unread ones. */
  lemma AppendOk(b: seq<byte>, b': seq<byte>, len: nat, size: nat, head: nat, tail: nat, msgs: seq<Message>, m: Message)
    requires RingOk(b, len, size, head, tail, msgs) && |msgs| < len && |b'| == |b| && Holds(b', tail, size, m)
    requires forall i | 0 <= i < |b| && !(Start(tail, size) <= i < Start(tail, size) + size) :: b'[i] == b[i]
    ensures RingOk(b', len, size, head, if tail + 1 == len then 0 else tail + 1, msgs + [m])
  {
    forall k | 0 <= k < |msgs + [m]| ensures Holds(b', At(head, k, len), size, (msgs + [m])[k]) {
      if k < |msgs| {
        HoldsKept(b, b', At(head, k, len), tail, size, msgs[k]);
      }
    }
  }

  /** Filling the slot in front of the head prepends a message. */
  lemma PrependOk(b: seq<byte>, b': seq<byte>, len: nat, size: nat, head: nat, tail: nat, msgs: seq<Message>, m: Message, at: nat)
    requires RingOk(b, len, size, head, tail, msgs) && |msgs| < len && |b'| == |b| && Holds(b', at, size, m)
    requires at == if head == 0 then len - 1 else head - 1
    requires forall i | 0 <= i < |b| && !(Start(at, size) <= i < Start(at, size) + size) :: b'[i] == b[i]
    ensures RingOk(b', len, size, at, tail, [m] + msgs)
  {
    forall k | 0 <= k < |[m] + msgs| ensures Holds(b', At(at, k, len), size, ([m] + msgs)[k]) {
      if k > 0 {
        assert At(at, k, len) == At(head, k - 1, len);
        HoldsKept(b, b', At(head, k - 1, len), at, size, msgs[k - 1]);
      }
    }
  }

  /** Moving the head past its slot removes the first message. */
  lemma RemoveOk(b: seq<byte>, len: nat, size: nat, head: nat, tail: nat, msgs: seq<Message>)
    requires RingOk(b, len, size, head, tail, msgs) && msgs != []
    ensures RingOk(b, len, size, if head + 1 == len then 0 else head + 1, tail, msgs[1..])
  {
    var head' := if head + 1 == len then 0 else head + 1;
    forall k | 0 <= k < |msgs[1..]| ensures Holds(b, At(head', k, len), size, msgs[1..][k]) {
      assert At(head', k, len) == At(head, k + 1, len);
    }
  }

  lemma HeadHolds(b: seq<byte>, len: nat, size: nat, head: nat, tail: nat, msgs: seq<Message>)
    requires RingOk(b, len, size, head, tail, msgs) && msgs != []
    ensures head < len && |b| == Bytes(len, size) && Holds(b, head, size, msgs[0])
  {
    assert At(head, 0, len) == head;
  }

  lemma EmptyRing(b: seq<byte>, len: nat, size: nat)
    requires 0 < len && TRAILER < size && |b| == Bytes(len, size)
    ensures RingOk(b, len, size, 0, 0, [])
  {
  }

  lemma FreshOk(len: nat, size: nat)
    requires 0 < len && TRAILER < size
    ensures Ok(Queue(true, len, size, [], 0, len, [], [], [], [], []))
  {
  }

  class QueueCb {
    var inUse: bool
    var buf: array<byte>            // pucQueue
    var len: nat                    // usQueueLen
    var size: nat                   // usQueueSize, message and trailer
    var head: nat
    var tail: nat
    var readable: nat               // usReadWriteableCnt[OS_QUEUE_READ]
    var writable: nat               // usReadWriteableCnt[OS_QUEUE_WRITE]
    var readers: seq<Waiter>        // stReadWriteList[OS_QUEUE_READ]
    var writers: seq<Waiter>        // stReadWriteList[OS_QUEUE_WRITE]
    var mail: seq<nat>              // stMemList
    ghost var msgs: seq<Message>
    ghost var readGrants: seq<Waiter>
    ghost var writeGrants: seq<Waiter>

    ghost function Abs(): Queue
      reads this
    {
      Queue(inUse, len, size, msgs, readable, writable, readers, writers, mail, readGrants, writeGrants)
    }

    ghost predicate Repr()
      reads this, buf
    {
      inUse ==> size < 0x1_0000 && RingOk(buf[..], len, size, head, tail, msgs)
    }

    ghost predicate Valid()
      reads this, buf
    {
      Repr() && Ok(Abs())
    }

    constructor ()
      ensures Valid() && !inUse
    {
      inUse, len, size, head, tail, readable, writable := false, 0, 0, 0, 0, 0, 0;
      buf := new byte[0];
      readers, writers, mail := [], [], [];
      msgs, readGrants, writeGrants := [], [], [];
    }

    /** The copies osQueueBufferOperate makes to write a message into slot `pos`. */
    method FillSlot(pos: nat, data: Message)
      requires inUse && pos < len && size < 0x1_0000 && buf.Length == Bytes(len, size) && Fits(data, size)
      modifies buf
      ensures Holds(buf[..], pos, size, data)
      ensures forall i | 0 <= i < buf.Length && !(Start(pos, size) <= i < Start(pos, size) + size) :: buf[i] == old(buf[i])
    {
      SlotInside(pos, len, size);
      var node := Start(pos, size);
      forall i | 0 <= i < |data| {
        buf[node + i] := data[i];
      }
      var trailer := Le32(|data|);
      var at := node + size - TRAILER;
      forall i | 0 <= i < TRAILER {
        buf[at + i] := trailer[i];
      }
      assert buf[at..at + TRAILER] == trailer;
    }

    /** The copies it makes to read a message out of slot `pos`. */
    method ReadSlot(pos: nat, ghost m: Message) returns (data: Message)
      requires pos < len && size < 0x1_0000 && buf.Length == Bytes(len, size) && Holds(buf[..], pos, size, m)
      ensures data == m
    {
      SlotInside(pos, len, size);
      var node := Start(pos, size);
      assert buf[..][node + size - TRAILER..node + size] == buf[node + size - TRAILER..node + size];
      var n := FromLe32(buf[node + size - TRAILER..node + size]);
      Le32RoundTrip(|m|);
      data := buf[node..node + n];
    }

    /** OS_QUEUE_READ_HEAD. */
    method TakeHead() returns (m: Message)
      requires inUse && Repr() && msgs != []
      modifies this`head, this`msgs
      ensures Repr() && m == old(msgs[0]) && msgs == old(msgs[1..])
    {
      var pos := head;
      HeadHolds(buf[..], len, size, head, tail, msgs);
      RemoveOk(buf[..], len, size, head, tail, msgs);
      hide RingOk, Holds, At, Start;
      ghost var b := buf[..];
      m := ReadSlot(pos, msgs[0]);
      head := if head + 1 == len then 0 else head + 1;
      msgs := msgs[1..];
    }

    /** OS_QUEUE_WRITE_HEAD. */
    method PutHead(m: Message)
      requires inUse && Repr() && |msgs| < len && Fits(m, size)
      modifies this`head, this`msgs, buf
      ensures Repr() && msgs == [m] + old(msgs)
    {
      ghost var b, h := buf[..], head;
      assert 0 < len && head < len && buf.Length == Bytes(len, size);
      hide RingOk, Holds;
      head := if head == 0 then len - 1 else head - 1;
      FillSlot(head, m);
      PrependOk(b, buf[..], len, size, h, tail, msgs, m, head);
      msgs := [m] + msgs;
    }

    /** OS_QUEUE_WRITE_TAIL. */
    method PutTail(m: Message)
      requires inUse && Repr() && |msgs| < len && Fits(m, size)
      modifies this`tail, this`msgs, buf
      ensures Repr() && msgs == old(msgs) + [m]
    {
      ghost var b := buf[..];
      var pos := tail;
      AtBounds(head, |msgs|, len);
      assert buf.Length == Bytes(len, size) && tail == At(head, |msgs|, len);
      hide RingOk, Holds;
      tail := if tail + 1 == len then 0 else tail + 1;
      FillSlot(pos, m);
      AppendOk(b, buf[..], len, size, head, pos, msgs, m);
      msgs := msgs + [m];
    }

    /** osQueueBufferOperate: the deque operation on the ring. */
    method BufferOperate(op: Op) returns (data: seq<Message>)
      requires inUse && Repr()
      requires if op.Read? then msgs != [] else |msgs| < len && Fits(op.data, size)
      modifies this`head, this`tail, this`msgs, buf
      ensures Repr() && msgs == PerformOn(old(msgs), op) && data == Output(old(msgs), op)
    {
      hide RingOk;
      data := [];
      match op {
        case Read =>
          var m := TakeHead();
          data := [m];
        case WriteHead(m) => PutHead(m);
        case WriteTail(m) => PutTail(m);
      }
    }

    // ------------------------------------------------------------ osQueueOperate

    /** From the ring operation on: lines that run both right away and after a wait. */
    method Finish(op: Op) returns (data: seq<Message>)
      requires inUse && Repr()
      requires if op.Read? then msgs != [] else |msgs| < len && Fits(op.data, size)
      modifies this, buf
      ensures Repr() && buf == old(buf) && Abs() == Complete(old(Abs()), op) && data == Output(old(msgs), op)
    {
      hide RingOk;
      data := BufferOperate(op);
      if op.Read? {
        if writers != [] {
          writeGrants := writeGrants + [writers[0]];
          writers := writers[1..];
        } else {
          writable := writable + 1;
        }
      } else {
        if readers != [] {
          readGrants := readGrants + [readers[0]];
          readers := readers[1..];
        } else {
          readable := readable + 1;
        }
      }
    }

    /** osQueueOperate up to where it returns or blocks. */
    method Operate(t: nat, op: Op, bufSize: nat, wait: bool, locked: bool) returns (r: Ret, data: seq<Message>)
      requires Valid() && (op.Read? || 0 < |op.data|)
      modifies this, buf
      ensures Valid() && Abs() == Call(old(Abs()), t, op, bufSize, wait, locked)
      ensures r == CallRet(old(Abs()), op, bufSize, wait, locked)
      ensures data == if r == Done then Output(old(msgs), op) else []
    {
      hide RingOk, Ok, Complete, Output;
      ghost var q := Abs();
      CallOk(q, t, op, bufSize, wait, locked);
      data := [];
      if !inUse { return NotCreate, data; }
      if op.Read? && bufSize + TRAILER < size { return ReadSizeTooSmall, data; }
      if !op.Read? && size < |op.data| + TRAILER { return WriteSizeTooBig, data; }
      if (if op.Read? then readable else writable) == 0 {
        if !wait { return if op.Read? then IsEmpty else IsFull, data; }
        if locked { return PendInLock, data; }
        if op.Read? {
          readers := readers + [Waiter(t, op)];
        } else {
          writers := writers + [Waiter(t, op)];
        }
        return Blocked, data;
      }
      if op.Read? {
        readable := readable - 1;
      } else {
        writable := writable - 1;
      }
      data := Finish(op);
      r := Done;
    }

    /** osQueueOperate in a task that waited to read and was woken. */
    method ResumeReader(t: nat, ghost i: nat) returns (data: Message)
      requires Valid() && i < |readGrants| && readGrants[i].task == t
      modifies this, buf
      ensures Valid() && Abs() == ResumeRead(old(Abs()), i)
      ensures old(msgs != []) && data == old(msgs[0])
    {
      ResumeReadOk(Abs(), i);
      assert inUse;
      hide RingOk, Ok;
      readGrants := Drop(readGrants, i);
      var out := Finish(Read);
      data := out[0];
    }

    /** osQueueOperate in a task that waited to write `op` and was woken. */
    method ResumeWriter(t: nat, op: Op, ghost i: nat)
      requires Valid() && i < |writeGrants| && writeGrants[i] == Waiter(t, op)
      modifies this, buf
      ensures Valid() && Abs() == ResumeWrite(old(Abs()), i)
    {
      ResumeWriteOk(Abs(), i);
      assert inUse && writeGrants[i] in writeGrants && Fits(op.data, size);
      hide RingOk, Ok;
      writeGrants := Drop(writeGrants, i);
      var out := Finish(op);
    }

    /** LOS_QueueDelete. */
    method QueueDelete() returns (r: Ret)
      requires Valid()
      modifies this
      ensures Valid() && r == DeleteRet(old(Abs())) && Abs() == Next(old(Abs()), EvDelete)
    {
      LeaveOk(Abs(), EvDelete);
      if !inUse { return NotCreate; }
      if readers != [] { return InTskUse; }
      if writers != [] { return InTskUse; }
      if mail != [] { return InTskUse; }
      if writable + readable != len { return InTskWrite; }
      inUse := false;
      r := Done;
    }

    /** LOS_QueueCreate on a free control block, with memory allocated for it. */
    method QueueCreate(len: nat, maxMsgSize: nat) returns (ok: bool)
      requires Valid() && !inUse && len < 0x1_0000 && maxMsgSize < 0x1_0000
      modifies this
      ensures Valid() && ok == (maxMsgSize <= 0xFFFF - 4 && len != 0 && maxMsgSize != 0)
      ensures ok ==> Abs() == Queue(true, len, maxMsgSize + TRAILER, [], 0, len, [], [], [], [], []) && fresh(buf)
      ensures !ok ==> Abs() == old(Abs())
    {
      hide RingOk, Ok;
      if maxMsgSize > 0xFFFF - 4 { return false; }
      if len == 0 || maxMsgSize == 0 { return false; }
      SetUp(len, maxMsgSize + TRAILER);
      GetRing();
      FreshOk(len, maxMsgSize + TRAILER);
      ok := true;
    }

    method SetUp(slots: nat, nodeSize: nat)
      modifies this
      ensures Abs() == Queue(true, slots, nodeSize, [], 0, slots, [], [], [], [], []) && head == 0 && tail == 0
    {
      hide RingOk, Ok;
      len, size, inUse := slots, nodeSize, true;
      readable, writable, head, tail := 0, slots, 0, 0;
      readers, writers, mail := [], [], [];
      msgs, readGrants, writeGrants := [], [], [];
    }

    method GetRing()
      requires 0 < len && TRAILER < size < 0x1_0000 && msgs == [] && head == 0 && tail == 0
      modifies this`buf
      ensures Repr() && fresh(buf)
    {
      hide RingOk, Bytes;
      buf := new byte[Bytes(len, size)];
      EmptyRing(buf[..], len, size);
    }
  }
}
