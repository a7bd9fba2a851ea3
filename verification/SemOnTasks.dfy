/** A semaphore on the task manager: LOS_SemPend and LOS_SemPost as steps of the whole
    kernel, with the wait list, the wheel and the scheduler, among all other calls and
    ticks.  Whatever the rest of the system does, the semaphore behaves as in module
    `Semaphore`. */
module SemOnTasks {
  import opened Tasks
  import opened Kernel
  import opened WaitLists
  import Protocol = Semaphore

  /** Wait list `l` of the kernel belongs to a semaphore with this count and maximum. */
  datatype Sys = Sys(k: State, l: nat, count: nat, max: nat)

  datatype Call = Pend(timeout: nat, interrupt: bool) | Post | Other(op: Op)

  ghost function Abs(y: Sys): Protocol.Sem
    requires y.l < |y.k.lists|
  {
    Protocol.Sem(true, y.count, y.max, y.k.lists[y.l])
  }

  ghost predicate Ok(y: Sys) {
    && Inv(y.k) && FIRST_WAIT <= y.l < |y.k.lists|
    && Protocol.Ok(Abs(y))
    && AllWait(y.k, y.l, false)
  }

  /** A pend that blocks is not made by the idle task; one that does not may come from
      anywhere.  No other object blocks or wakes tasks on this semaphore's list. */
  ghost predicate Enabled(y: Sys, c: Call)
    requires Ok(y)
  {
    match c
    case Pend(_, _) => Returns(y, c).Blocked? ==> y.k.run != y.k.idle && !y.k.St(y.k.run).timeout
    case Post => true
    case Other(op) => Foreign(y.k, op, y.l)
  }

  function Returns(y: Sys, c: Call): Protocol.Ret
    requires y.l < |y.k.lists| && !c.Other?
  {
    var s := Protocol.Sem(true, y.count, y.max, y.k.lists[y.l]);
    if c.Pend? then Protocol.PendRet(s, c.timeout != 0, c.interrupt, y.k.lock != 0) else Protocol.PostRet(s)
  }

  ghost function Next(y: Sys, c: Call): Sys
    requires Ok(y) && Enabled(y, c)
  {
    match c
    case Pend(timeout, _) =>
      if Returns(y, c).Taken? then y.(count := y.count - 1)
      else if Returns(y, c).Blocked? then y.(k := Block(y.k, y.l, false, timeout))
      else y
    case Post =>
      if Returns(y, c).Granted? then
        assert y.k.lists[y.l][0] in y.k.lists[y.l];
        y.(k := Reschedule(Grant(y.k, y.k.lists[y.l][0], false)))
      else if Returns(y, c).Raised? then y.(count := y.count + 1)
      else y
    case Other(op) => y.(k := Apply(y.k, op))
  }

  // ---------------------------------------------------------------- the rest of the system

  lemma OtherOk(y: Sys, op: Op)
    requires Ok(y) && Enabled(y, Other(op))
    ensures Ok(Next(y, Other(op)))
  {
    hide AllWait, Inv, Kernel.Enabled, Apply;
    var gone := ForeignOnlyDrops(y.k, op, y.l);
    ForeignKeepsWaiting(y.k, op, y.l, false);
    DropsMembers(y.k.lists[y.l], gone);
    var k' := Apply(y.k, op);
    if k'.lists[y.l] != [] {
      assert k'.lists[y.l][0] in y.k.lists[y.l];
    }
  }

  // ---------------------------------------------------------------- its own calls

  lemma PendSimulates(y: Sys, timeout: nat, interrupt: bool)
    requires Ok(y) && Enabled(y, Pend(timeout, interrupt))
    ensures Ok(Next(y, Pend(timeout, interrupt)))
    ensures Abs(Next(y, Pend(timeout, interrupt))) == Protocol.Pend(Abs(y), y.k.run, timeout != 0, interrupt, y.k.lock != 0)
  {
    hide Inv, Block;
    if Returns(y, Pend(timeout, interrupt)).Blocked? {
      var k' := Block(y.k, y.l, false, timeout);
      forall t <- k'.lists[y.l] ensures t < |k'.tcb| && k'.tcb[t].st.pend && !k'.tcb[t].st.pendQueue {
        if t != y.k.run {
          assert t in y.k.lists[y.l] && SameWait(y.k, k', t);
        }
      }
    }
  }

  lemma PostSimulates(y: Sys)
    requires Ok(y) && Enabled(y, Post)
    ensures Ok(Next(y, Post)) && Abs(Next(y, Post)) == Protocol.Post(Abs(y))
  {
    hide Inv, Block, Grant, Reschedule;
    if Returns(y, Post).Granted? {
      var l := y.k.lists[y.l];
      assert l[0] in l;
      Member(y.k, y.l, l[0]);
      GrantFirst(y, l[0]);
    }
  }

  lemma GrantFirst(y: Sys, t: nat)
    requires Ok(y) && y.k.lists[y.l] != [] && t == y.k.lists[y.l][0] && t < |y.k.tcb| && y.k.St(t).pend && y.k.link[t] == y.l
    ensures var k1 := Grant(y.k, t, false);
      var k' := Reschedule(k1);
      y.l < |k'.lists| && k'.lists[y.l] == y.k.lists[y.l][1..] && AllWait(k', y.l, false)
  {
    hide Grant, Reschedule, Base, HeadsBest;
    var k1 := Grant(y.k, t, false);
    var k' := Reschedule(k1);
    var l := y.k.lists[y.l];
    assert Without(l, t) == l[1..];
    InvDistinct(y.k, y.l);
    forall x <- k'.lists[y.l] ensures x < |k'.tcb| && k'.tcb[x].st.pend && !k'.tcb[x].st.pendQueue {
      assert x in l && x != t;
      assert SameWait(y.k, k1, x) && SameWait(k1, k', x);
    }
  }

  // ---------------------------------------------------------------- the semaphore in the running system

  /** Every step of the system is a step of the semaphore's own calls as `Semaphore`
      defines them, or takes some waiters out and leaves the count alone. */
  lemma StepRefines(y: Sys, c: Call)
    requires Ok(y) && Enabled(y, c)
    ensures var y' := Next(y, c);
      && Ok(y') && y'.l == y.l && y'.max == y.max
      && match c
         case Pend(timeout, interrupt) => Abs(y') == Protocol.Pend(Abs(y), y.k.run, timeout != 0, interrupt, y.k.lock != 0)
         case Post => Abs(y') == Protocol.Post(Abs(y))
         case Other(_) => y'.count == y.count && Thinner(y.k.lists[y.l], y'.k.lists[y.l])
  {
    hide Ok, Abs, Apply, Block, Grant, Reschedule, Returns;
    match c
    case Pend(timeout, interrupt) => PendSimulates(y, timeout, interrupt);
    case Post => PostSimulates(y);
    case Other(op) =>
      var gone := ForeignOnlyDrops(y.k, op, y.l);
      OtherOk(y, op);
  }

  // ---------------------------------------------------------------- what a caller sees

  /** A pend in the running system, field by field: a token that is there is taken
      whatever the timeout, the lock and the context; a caller that has to wait is last
      in the kernel's list with its timeout on the wheel. */
  lemma PendAnswers(y: Sys, timeout: nat, interrupt: bool)
    requires Ok(y) && Enabled(y, Pend(timeout, interrupt))
    ensures var r, y' := Returns(y, Pend(timeout, interrupt)), Next(y, Pend(timeout, interrupt));
      if y.count > 0 then r == Protocol.Taken && y' == y.(count := y.count - 1)
      else if timeout == 0 then r == Protocol.Unavailable && y' == y
      else if interrupt then r == Protocol.PendInterr && y' == y
      else if y.k.lock != 0 then r == Protocol.PendInLock && y' == y
      else
        && r == Protocol.Blocked && y' == y.(k := y'.k) && y.l < |y'.k.lists| && y'.k.lists[y.l] == y.k.lists[y.l] + [y.k.run]
        && WaitsIn(y'.k, y.k.run, y.l, false, timeout) && HeadsBest(y'.k, y'.k.run)
  {
    hide Inv, AllWait, Block;
  }

  /** A post: below the maximum it always counts, for the longest waiter in the kernel's
      list, which then waits no more, or for the count; at the maximum nothing changes. */
  lemma PostAnswers(y: Sys)
    requires Ok(y)
    ensures var r, y', waiters := Returns(y, Post), Next(y, Post), y.k.lists[y.l];
      if y.count == y.max then r == Protocol.Overflow && y' == y
      else if waiters == [] then r == Protocol.Raised && y' == y.(count := y.count + 1)
      else
        && r == Protocol.Granted && y' == y.(k := y'.k) && y.l < |y'.k.lists| && [waiters[0]] + y'.k.lists[y.l] == waiters
        && NotWaiting(y'.k, waiters[0]) && (y.k.lock == 0 ==> HeadsBest(y'.k, y'.k.run))
  {
    hide Inv, AllWait, Grant, Reschedule, HeadsBest;
    PostSimulates(y);
    if y.count < y.max && y.k.lists[y.l] != [] {
      WakesFirst(y);
    }
  }

  lemma WakesFirst(y: Sys)
    requires Ok(y) && y.k.lists[y.l] != [] && Returns(y, Post).Granted?
    ensures var t, k' := y.k.lists[y.l][0], Next(y, Post).k;
      NotWaiting(k', t) && (y.k.lock == 0 ==> HeadsBest(k', k'.run))
  {
    hide Inv, Grant, Reschedule, HeadsBest;
    var t := y.k.lists[y.l][0];
    assert t in y.k.lists[y.l];
    GrantKeepsLock(y.k, t);
    var k1 := Grant(y.k, t, false);
    assert SameWait(k1, Reschedule(k1), t);
  }

  lemma GrantKeepsLock(k: State, t: nat)
    requires Inv(k) && t < |k.tcb| && k.St(t).pend
    ensures Grant(k, t, false).lock == k.lock && InvBeforeSchedule(Grant(k, t, false))
  {
  }

  // ---------------------------------------------------------------- runs

  ghost predicate StepTo(y: Sys, c: Call, y': Sys) {
    Ok(y) && Enabled(y, c) && y' == Next(y, c)
  }

  ghost predicate IsRun(states: seq<Sys>, calls: seq<Call>) {
    && |states| == |calls| + 1 && Ok(states[0])
    && forall i | 0 <= i < |calls| :: StepTo(states[i], calls[i], states[i + 1])
  }

  /** Tokens handed out by the step: taken at once or granted to a waiter. */
  function Gives(y: Sys, c: Call): nat
    requires y.l < |y.k.lists|
  {
    if !c.Other? && Returns(y, c) in {Protocol.Taken, Protocol.Granted} then 1 else 0
  }

  /** Tokens brought in by the step. */
  function Brings(y: Sys, c: Call): nat
    requires y.l < |y.k.lists|
  {
    if c.Post? && Returns(y, c) in {Protocol.Granted, Protocol.Raised} then 1 else 0
  }

  function Given(states: seq<Sys>, calls: seq<Call>, n: nat): nat
    requires n <= |calls| < |states| && forall i | 0 <= i < n :: states[i].l < |states[i].k.lists|
  {
    if n == 0 then 0
    else Given(states, calls, n - 1) + Gives(states[n - 1], calls[n - 1])
  }

  function Posted(states: seq<Sys>, calls: seq<Call>, n: nat): nat
    requires n <= |calls| < |states| && forall i | 0 <= i < n :: states[i].l < |states[i].k.lists|
  {
    if n == 0 then 0
    else Posted(states, calls, n - 1) + Brings(states[n - 1], calls[n - 1])
  }

  lemma ListsExist(states: seq<Sys>, calls: seq<Call>)
    requires IsRun(states, calls)
    ensures forall i | 0 <= i < |calls| :: states[i].l < |states[i].k.lists|
  {
    hide Inv, Protocol.Ok, AllWait, Next, Enabled;
    forall i | 0 <= i < |calls| ensures states[i].l < |states[i].k.lists| {
      assert StepTo(states[i], calls[i], states[i + 1]);
    }
  }

  /** Tokens are conserved in the running system: over any interleaving of this
      semaphore's calls with all other kernel calls, wake-ups and ticks, the tokens
      there at first and those posted are those given out and those still there, and
      nobody waits while a token is left. */
  lemma {:induction false} TokensConserved(states: seq<Sys>, calls: seq<Call>, n: nat)
    requires IsRun(states, calls) && n <= |calls|
    ensures forall i | 0 <= i < |calls| :: states[i].l < |states[i].k.lists|
    ensures Ok(states[n]) && states[n].max == states[0].max && states[n].count <= states[n].max
    ensures states[n].k.lists[states[n].l] != [] ==> states[n].count == 0
    ensures states[0].count + Posted(states, calls, n) == Given(states, calls, n) + states[n].count
  {
    hide *;
    ListsExist(states, calls);
    RunBegins(states, calls);
    if n > 0 {
      TokensConserved(states, calls, n - 1);
      RunStep(states, calls, n - 1);
      CountStep(states[n - 1], calls[n - 1]);
    }
    WithinBounds(states[n]);
    Tally(states, calls, n);
  }

  lemma RunBegins(states: seq<Sys>, calls: seq<Call>)
    requires IsRun(states, calls)
    ensures |states| == |calls| + 1 && Ok(states[0])
  {
    hide Ok, Next, Enabled;
  }

  lemma RunStep(states: seq<Sys>, calls: seq<Call>, i: nat)
    requires IsRun(states, calls) && i < |calls|
    ensures |states| == |calls| + 1 && Ok(states[i]) && Enabled(states[i], calls[i]) && states[i + 1] == Next(states[i], calls[i])
  {
    hide Ok, Next, Enabled;
    assert StepTo(states[i], calls[i], states[i + 1]);
  }

  lemma WithinBounds(y: Sys)
    requires Ok(y)
    ensures y.l < |y.k.lists| && y.count <= y.max && (y.k.lists[y.l] != [] ==> y.count == 0)
  {
    hide Inv, AllWait;
  }

  lemma Tally(states: seq<Sys>, calls: seq<Call>, n: nat)
    requires n <= |calls| < |states| && forall i | 0 <= i < |calls| :: states[i].l < |states[i].k.lists|
    ensures n == 0 ==> Given(states, calls, n) == 0 == Posted(states, calls, n)
    ensures n > 0 ==> Given(states, calls, n) == Given(states, calls, n - 1) + Gives(states[n - 1], calls[n - 1])
    ensures n > 0 ==> Posted(states, calls, n) == Posted(states, calls, n - 1) + Brings(states[n - 1], calls[n - 1])
  {
    hide Gives, Brings;
  }

  lemma CountStep(y: Sys, c: Call)
    requires Ok(y) && Enabled(y, c)
    ensures Ok(Next(y, c)) && Next(y, c).max == y.max
    ensures y.l < |y.k.lists| && y.count + Brings(y, c) == Next(y, c).count + Gives(y, c)
  {
    StepRefines(y, c);
    hide Inv, AllWait, Apply, Block, Grant, Reschedule;
  }
}
