/** Mail blocks of los_queue.c: tasks wait on the queue for a block of its pool, and a
    task that frees a block hands one straight to the longest waiter.  The pool is a
    fixed set of blocks; `handed` lists the blocks given to tasks that have been woken
    and have not run yet (`puwMsg` of their control blocks). */
module Mail {

  datatype Handed = Handed(task: nat, block: nat)

  datatype Mailbox = Mailbox(inUse: bool, free: seq<nat>, out: set<nat>, waiters: seq<nat>, handed: seq<Handed>)

  datatype Ret = Got(block: nat) | Null | Blocked | Done | NotCreate | FreeError

  ghost predicate Distinct<T(!new)>(l: seq<T>) {
    forall i, j | 0 <= i < j < |l| :: l[i] != l[j]
  }

  function Blocks(handed: seq<Handed>): (l: seq<nat>)
    ensures |l| == |handed|
  {
    seq(|handed|, i requires 0 <= i < |handed| => handed[i].block)
  }

  /** Each of the blocks in `all` is in exactly one place: free, with a caller, or on
      its way to a woken task.  No task waits while a block is free. */
  ghost predicate Ok(m: Mailbox, all: set<nat>) {
    && Distinct(m.free) && Distinct(Blocks(m.handed))
    && (forall b :: b in all <==> b in m.free || b in m.out || b in Blocks(m.handed))
    && (forall b <- m.free :: b !in m.out && b !in Blocks(m.handed))
    && (forall b <- Blocks(m.handed) :: b !in m.out)
    && (m.waiters != [] ==> m.inUse && m.free == [])
  }

  // ---------------------------------------------------------------- calls

  function AllocRet(m: Mailbox, wait: bool, interrupt: bool): Ret {
    if wait && interrupt then Null
    else if !m.inUse then Null
    else if m.free != [] then Got(m.free[0])
    else if !wait then Null
    else Blocked
  }

  /** osQueueMailAlloc up to where it returns or blocks. */
  function Alloc(m: Mailbox, t: nat, wait: bool, interrupt: bool): Mailbox {
    match AllocRet(m, wait, interrupt)
    case Got(b) => m.(free := m.free[1..], out := m.out + {b})
    case Blocked => m.(waiters := m.waiters + [t])
    case _ => m
  }

  /** A woken task runs and takes the block it was handed. */
  function Resume(m: Mailbox, i: nat): Mailbox
    requires i < |m.handed|
  {
    m.(out := m.out + {m.handed[i].block}, handed := m.handed[..i] + m.handed[i + 1..])
  }

  function Expire(m: Mailbox, i: nat): Mailbox
    requires i < |m.waiters|
  {
    m.(waiters := m.waiters[..i] + m.waiters[i + 1..])
  }

  function FreeRet(m: Mailbox, b: nat): Ret {
    if b !in m.out then FreeError else if !m.inUse then NotCreate else Done
  }

  /** osQueueMailFree.  The block goes back to the pool first; if a task waits, it is
      woken and a block is allocated again on its behalf. */
  function Free(m: Mailbox, b: nat): Mailbox {
    if FreeRet(m, b) == FreeError then m
    else
      var m1 := m.(free := [b] + m.free, out := m.out - {b});
      if !m.inUse || m.waiters == [] then m1
      else m1.(free := m1.free[1..], waiters := m.waiters[1..], handed := m.handed + [Handed(m.waiters[0], m1.free[0])])
  }

  /** LOS_QueueDelete as far as the mail side goes: not while a task waits for a block. */
  function Delete(m: Mailbox): Mailbox {
    if m.waiters == [] then m.(inUse := false) else m
  }

  // ---------------------------------------------------------------- every block in one place

  lemma AllocOk(m: Mailbox, all: set<nat>, t: nat, wait: bool, interrupt: bool)
    requires Ok(m, all)
    ensures Ok(Alloc(m, t, wait, interrupt), all)
  {
    if AllocRet(m, wait, interrupt).Got? {
      assert m.free == [m.free[0]] + m.free[1..] && m.free[0] !in m.free[1..];
    }
  }

  lemma DropMembers(l: seq<nat>, i: nat)
    requires i < |l| && Distinct(l)
    ensures Distinct(l[..i] + l[i + 1..]) && forall x :: x in l[..i] + l[i + 1..] <==> x in l && x != l[i]
  {
    var d := l[..i] + l[i + 1..];
    assert l == l[..i] + [l[i]] + l[i + 1..];
    assert forall k | 0 <= k < |d| :: d[k] == l[if k < i then k else k + 1];
  }

  lemma ResumeOk(m: Mailbox, all: set<nat>, i: nat)
    requires Ok(m, all) && i < |m.handed|
    ensures Ok(Resume(m, i), all)
  {
    var l := Blocks(m.handed);
    DropMembers(l, i);
    assert Blocks(Resume(m, i).handed) == l[..i] + l[i + 1..];
    assert l[i] in l;
  }

  lemma FreeOk(m: Mailbox, all: set<nat>, b: nat)
    requires Ok(m, all)
    ensures Ok(Free(m, b), all)
  {
    var m' := Free(m, b);
    if FreeRet(m, b) == Done && m.waiters != [] {
      assert Blocks(m'.handed) == Blocks(m.handed) + [b];
    }
  }

  /** The three calls, field by field. */
  lemma AllocAnswers(m: Mailbox, t: nat, wait: bool, interrupt: bool)
    ensures var r, m' := AllocRet(m, wait, interrupt), Alloc(m, t, wait, interrupt);
      if !m.inUse || (wait && interrupt) then r == Null && m' == m
      else if m.free != [] then r == Got(m.free[0]) && m' == m.(free := m.free[1..], out := m.out + {m.free[0]})
      else if !wait then r == Null && m' == m
      else r == Blocked && m' == m.(waiters := m.waiters + [t])
  {
  }

  lemma FreeAnswers(m: Mailbox, all: set<nat>, b: nat)
    requires Ok(m, all) && b in m.out
    ensures var r, m' := FreeRet(m, b), Free(m, b);
      && (r == Done <==> m.inUse) && (r == NotCreate <==> !m.inUse)
      && m' == if m.waiters == [] then m.(free := [b] + m.free, out := m.out - {b})
               else m.(out := m.out - {b}, waiters := m.waiters[1..], handed := m.handed + [Handed(m.waiters[0], b)])
  {
  }

  lemma DeleteAnswers(m: Mailbox)
    ensures Delete(m) == if m.waiters == [] then m.(inUse := false) else m
  {
  }

  datatype Event =
    | EvAlloc(task: nat, wait: bool, interrupt: bool)
    | EvResume(i: nat)
    | EvExpire(i: nat)
    | EvFree(block: nat)
    | EvDelete

  predicate Enabled(m: Mailbox, e: Event) {
    match e
    case EvResume(i) => i < |m.handed|
    case EvExpire(i) => i < |m.waiters|
    case _ => true
  }

  function Next(m: Mailbox, e: Event): Mailbox
    requires Enabled(m, e)
  {
    match e
    case EvAlloc(t, wait, interrupt) => Alloc(m, t, wait, interrupt)
    case EvResume(i) => Resume(m, i)
    case EvExpire(i) => Expire(m, i)
    case EvFree(b) => Free(m, b)
    case EvDelete => Delete(m)
  }

  lemma StepOk(m: Mailbox, all: set<nat>, e: Event)
    requires Ok(m, all) && Enabled(m, e)
    ensures Ok(Next(m, e), all)
  {
    match e
    case EvAlloc(t, wait, interrupt) => AllocOk(m, all, t, wait, interrupt);
    case EvResume(i) => ResumeOk(m, all, i);
    case EvFree(b) => FreeOk(m, all, b);
    case _ =>
  }

  /** A free with a task waiting always has a block for it, and it is the longest
      waiter that gets it. */
  lemma FreeServesFirst(m: Mailbox, all: set<nat>, b: nat)
    requires Ok(m, all) && m.waiters != [] && b in m.out
    ensures FreeRet(m, b) == Done && Free(m, b).handed == m.handed + [Handed(m.waiters[0], b)]
    ensures [m.waiters[0]] + Free(m, b).waiters == m.waiters && Free(m, b).free == []
  {
  }

  ghost predicate IsRun(states: seq<Mailbox>, events: seq<Event>) {
    && |states| == |events| + 1
    && forall i | 0 <= i < |events| :: Enabled(states[i], events[i]) && states[i + 1] == Next(states[i], events[i])
  }

  /** Blocks are conserved over every run: none is lost, and none is with two tasks. */
  lemma {:induction false} BlocksConserved(states: seq<Mailbox>, events: seq<Event>, all: set<nat>, n: nat)
    requires IsRun(states, events) && Ok(states[0], all) && n <= |events|
    ensures Ok(states[n], all)
    ensures |states[n].free| + |states[n].out| + |states[n].handed| == |all|
  {
    if n > 0 {
      BlocksConserved(states, events, all, n - 1);
      assert states[n - 1 + 1] == Next(states[n - 1], events[n - 1]);
      StepOk(states[n - 1], all, events[n - 1]);
    }
    CountBlocks(states[n], all);
  }

  function Members(l: seq<nat>): set<nat> {
    set x | x in l
  }

  lemma {:induction false} CountDistinct(l: seq<nat>)
    requires Distinct(l)
    ensures |Members(l)| == |l|
  {
    if l == [] {
      assert Members(l) == {};
    } else {
      CountDistinct(l[1..]);
      assert l == [l[0]] + l[1..] && l[0] !in Members(l[1..]);
      assert Members(l) == {l[0]} + Members(l[1..]);
    }
  }

  lemma CountBlocks(m: Mailbox, all: set<nat>)
    requires Ok(m, all)
    ensures |m.free| + |m.out| + |m.handed| == |all|
  {
    CountDistinct(m.free);
    CountDistinct(Blocks(m.handed));
    assert all == Members(m.free) + m.out + Members(Blocks(m.handed));
    assert |Members(m.free) + m.out| == |Members(m.free)| + |m.out|;
  }

  // ---------------------------------------------------------------- as it runs

  class MailCb {
    ghost const all: set<nat>
    var inUse: bool
    var free: seq<nat>
    var waiters: seq<nat>  // stMemList
    ghost var out: set<nat>
    var handed: seq<Handed>

    ghost function Abs(): Mailbox
      reads this
    {
      Mailbox(inUse, free, out, waiters, handed)
    }

    ghost predicate Valid()
      reads this
    {
      Ok(Abs(), all)
    }

    /** A queue in use with a pool of `count` blocks. */
    constructor (count: nat)
      ensures Valid() && Abs() == Mailbox(true, seq(count, i => i), {}, [], []) && |all| == count
    {
      free := seq(count, i => i);
      inUse, waiters, handed, out := true, [], [], {};
      all := Members(seq(count, i => i));
      new;
      assert Blocks(handed) == [];
      CountBlocks(Abs(), all);
    }

    /** osQueueMailAlloc. */
    method QueueMailAlloc(t: nat, wait: bool, interrupt: bool) returns (r: Ret)
      requires Valid()
      modifies this
      ensures Valid() && r == AllocRet(old(Abs()), wait, interrupt) && Abs() == Alloc(old(Abs()), t, wait, interrupt)
    {
      AllocOk(Abs(), all, t, wait, interrupt);
      if wait && interrupt { return Null; }
      if !inUse { return Null; }
      if free != [] {
        r := Got(free[0]);
        out := out + {free[0]};
        free := free[1..];
        return;
      }
      if !wait { return Null; }
      waiters := waiters + [t];  // osTaskWait
      r := Blocked;
    }

    /** osQueueMailFree of a block that a caller holds. */
    method QueueMailFree(b: nat) returns (r: Ret)
      requires Valid() && b in out
      modifies this
      ensures Valid() && r == FreeRet(old(Abs()), b) && Abs() == Free(old(Abs()), b)
    {
      FreeOk(Abs(), all, b);
      free := [b] + free;  // LOS_MemboxFree
      out := out - {b};
      if !inUse { return NotCreate; }
      if waiters != [] {
        var resumed := waiters[0];
        waiters := waiters[1..];  // osTaskWake
        handed := handed + [Handed(resumed, free[0])];  // LOS_MemboxAlloc
        free := free[1..];
      }
      r := Done;
    }
  }
}
