/** An event group on the task manager: LOS_EventRead, LOS_EventWrite and LOS_EventClear
    as steps of the whole kernel.  One write may wake many tasks. */
module EventOnTasks {
  import opened Tasks
  import opened Kernel
  import opened WaitLists
  import E = Event

  /** `mask[t]` and `mode[t]` are uwEventMask and uwEventMode of task `t`; `woken` lists
      the tasks that were woken and have not polled again. */
  datatype Sys = Sys(k: State, l: nat, id: bv32, mask: seq<bv32>, mode: seq<bv32>, woken: seq<nat>)

  datatype Call =
    | Read(mask: bv32, mode: bv32, timeout: nat, interrupt: bool)
    | Resume(i: nat)
    | Poll(mask: bv32, mode: bv32)
    | Write(events: bv32)
    | Clear(events: bv32)
    | Other(call: Op)

  ghost function Waiters(l: seq<nat>, mask: seq<bv32>, mode: seq<bv32>): (w: seq<E.Waiter>)
    requires InRange(l, |mask|) && |mode| == |mask|
    ensures |w| == |l| && forall i | 0 <= i < |l| :: w[i] == E.Waiter(l[i], mask[l[i]], mode[l[i]])
  {
    seq(|l|, i requires 0 <= i < |l| => E.Waiter(l[i], mask[l[i]], mode[l[i]]))
  }

  ghost predicate Shape(y: Sys) {
    && Inv(y.k) && |y.mask| == |y.mode| == |y.k.tcb|
    && FIRST_WAIT <= y.l < |y.k.lists| && AllWait(y.k, y.l, false)
    && InRange(y.k.lists[y.l], |y.mask|) && InRange(y.woken, |y.mask|)
  }

  ghost function Abs(y: Sys): E.Group
    requires Shape(y)
  {
    E.Group(y.id, Waiters(y.k.lists[y.l], y.mask, y.mode), Waiters(y.woken, y.mask, y.mode))
  }

  ghost predicate Sound(y: Sys) {
    Shape(y) && E.Ok(Abs(y))
  }

  /** A read that blocks is made by a task that is not inside one already, and not by the
      idle task; a woken task polls again when it runs, and is not deleted before. */
  ghost predicate May(y: Sys, c: Call)
    requires Sound(y)
  {
    match c
    case Read(mask, mode, timeout, interrupt) =>
      ReadRet(y, mask, mode, timeout, interrupt) == E.Blocked ==>
        y.k.run != y.k.idle && !y.k.St(y.k.run).timeout && y.k.run !in y.woken
    case Resume(i) => i < |y.woken| && y.woken[i] == y.k.run
    case Other(call) => Foreign(y.k, call, y.l) && (call.OpDelete? ==> call.task !in y.woken)
    case _ => true
  }

  // ---------------------------------------------------------------- waking many

  /** osTaskWake on each of the tasks in turn. */
  ghost function WakeAll(k: State, ts: seq<nat>): (k': State)
    requires Inv(k) && Distinct(ts) && forall t <- ts :: t < |k.tcb| && k.St(t).pend
    ensures Inv(k') && |k'.tcb| == |k.tcb| && |k'.lists| == |k.lists|
    decreases |ts|
  {
    if ts == [] then k
    else
      assert ts[0] in ts && forall x <- ts[1..] :: x in ts;
      GrantOthers(k, ts[0], ts[1..]);
      WakeAll(Grant(k, ts[0], false), ts[1..])
  }

  lemma GrantOthers(k: State, t: nat, rest: seq<nat>)
    requires Inv(k) && t < |k.tcb| && k.St(t).pend && t !in rest
    requires forall x <- rest :: x < |k.tcb| && k.St(x).pend
    ensures var k' := Grant(k, t, false);
      |k'.tcb| == |k.tcb| && |k'.lists| == |k.lists| && forall x <- rest :: x < |k'.tcb| && k'.St(x).pend
  {
    hide Grant, Inv;
    var k' := Grant(k, t, false);
    forall x <- rest ensures x < |k'.tcb| && k'.St(x).pend {
      assert SameWait(k, k', x);
    }
  }

  /** The list loses exactly those tasks and keeps its order, and those who stay wait on. */
  lemma {:induction false} WakeAllList(k: State, l: nat, ts: seq<nat>, gone: set<nat>)
    requires Inv(k) && FIRST_WAIT <= l < |k.lists| && AllWait(k, l, false)
    requires Distinct(ts) && (forall t <- ts :: t in k.lists[l] && t < |k.tcb| && k.St(t).pend) && gone == set t | t in ts
    ensures WakeAll(k, ts).lists[l] == Minus(k.lists[l], gone)
    ensures AllWait(WakeAll(k, ts), l, false)
    decreases |ts|
  {
    hide Grant, Inv, Minus, WakeAll, AllWait, Distinct, Without;
    InvDistinct(k, l);
    if ts == [] {
      assert gone == {};
      WithoutMinus(k.lists[l], 0, {});
      WakeNone(k);
    } else {
      var t, rest := ts[0], set x | x in ts[1..];
      assert t in ts;
      WakeAllFirst(k, ts);
      WakeOne(k, l, t);
      WakeRest(k, l, ts);
      WakeAllList(Grant(k, t, false), l, ts[1..], rest);
      WithoutMinus(k.lists[l], t, rest);
      assert gone == rest + {t};
    }
  }

  lemma WakeNone(k: State)
    requires Inv(k)
    ensures WakeAll(k, []) == k
  {
  }

  lemma WakeRest(k: State, l: nat, ts: seq<nat>)
    requires Inv(k) && l < |k.lists| && Distinct(ts) && ts != [] && forall t <- ts :: t in k.lists[l]
    ensures Distinct(ts[1..]) && forall x <- ts[1..] :: x in Without(k.lists[l], ts[0])
  {
    InvDistinct(k, l);
    WithoutMembers(k.lists[l], ts[0]);
    hide Inv, Without;
    forall x <- ts[1..] ensures x in ts && x != ts[0] {
    }
  }

  lemma WakeAllFirst(k: State, ts: seq<nat>)
    requires Inv(k) && Distinct(ts) && ts != [] && forall t <- ts :: t < |k.tcb| && k.St(t).pend
    ensures ts[0] in ts && ts[0] < |k.tcb| && k.St(ts[0]).pend
    ensures var k1 := Grant(k, ts[0], false);
      && (forall t <- ts[1..] :: t < |k1.tcb| && k1.St(t).pend)
      && WakeAll(k, ts) == WakeAll(k1, ts[1..])
  {
    assert ts[0] in ts;
    GrantOthers(k, ts[0], ts[1..]);
  }

  lemma WakeOne(k: State, l: nat, t: nat)
    requires Inv(k) && FIRST_WAIT <= l < |k.lists| && AllWait(k, l, false) && t in k.lists[l] && t < |k.tcb| && k.St(t).pend
    ensures var k' := Grant(k, t, false);
      l < |k'.lists| && k'.lists[l] == Without(k.lists[l], t) && AllWait(k', l, false)
  {
    hide Grant, Base;
    Member(k, l, t);
    InvDistinct(k, l);
    WithoutMembers(k.lists[l], t);
    var k' := Grant(k, t, false);
    forall x <- k'.lists[l] ensures x < |k'.tcb| && k'.tcb[x].st.pend && !k'.tcb[x].st.pendQueue {
      assert x in k.lists[l] && x != t && SameWait(k, k', x);
    }
  }

  /** The members of `l` that are in `gone`. */
  function Keep(l: seq<nat>, gone: set<nat>): seq<nat> {
    if l == [] then [] else Keep(l[..|l| - 1], gone) + if l[|l| - 1] in gone then [l[|l| - 1]] else []
  }

  lemma {:induction false} KeepMembers(l: seq<nat>, gone: set<nat>)
    requires Distinct(l)
    ensures Distinct(Keep(l, gone)) && forall t :: t in Keep(l, gone) <==> t in l && t in gone
  {
    if l != [] {
      KeepMembers(l[..|l| - 1], gone);
      assert l == l[..|l| - 1] + [l[|l| - 1]];
    }
  }

  lemma {:induction false} MinusSnoc(l: seq<nat>, x: nat, gone: set<nat>)
    ensures Minus(l + [x], gone) == Minus(l, gone) + if x in gone then [] else [x]
  {
    if l == [] {
      assert [x][1..] == [] && l + [x] == [x];
      assert Minus([x], gone) == (if x in gone then [] else [x]) + Minus([], gone);
    } else {
      assert (l + [x])[0] == l[0] && (l + [x])[1..] == l[1..] + [x];
      MinusSnoc(l[1..], x, gone);
    }
  }

  /** `gone` are the tasks of the list whose condition holds. */
  ghost predicate Satisfies(l: seq<nat>, mask: seq<bv32>, mode: seq<bv32>, id: bv32, gone: set<nat>) {
    && |mode| == |mask| && InRange(l, |mask|)
    && forall i | 0 <= i < |l| :: l[i] in gone <==> E.Satisfied(id, mask[l[i]], mode[l[i]])
  }

  /** Those woken and those left are what `Event.Select` describes. */
  lemma {:induction false} SelectTasks(l: seq<nat>, mask: seq<bv32>, mode: seq<bv32>, id: bv32, gone: set<nat>)
    requires Satisfies(l, mask, mode, id, gone)
    ensures InRange(l, |mask|) && |mode| == |mask| && InRange(Keep(l, gone), |mask|) && InRange(Minus(l, gone), |mask|)
    ensures Waiters(Keep(l, gone), mask, mode) == E.Select(Waiters(l, mask, mode), id, true)
    ensures Waiters(Minus(l, gone), mask, mode) == E.Select(Waiters(l, mask, mode), id, false)
  {
    hide *;
    SatisfiesRange(l, mask, mode, id, gone);
    if l == [] {
      SelectNone(mask, mode, id, gone);
    } else {
      var n := |l| - 1;
      var front, x := l[..n], l[n];
      SatisfiesFront(l, mask, mode, id, gone);
      SelectTasks(front, mask, mode, id, gone);
      MinusSnoc(front, x, gone);
      KeepSnoc(front, x, gone);
      assert front + [x] == l;
      SelectLast(l, mask, mode, id);
      One(x, mask, mode);
      if x in gone {
        WaitersJoin(Keep(front, gone), [x], mask, mode);
        assert Minus(front, gone) + [] == Minus(front, gone);
      } else {
        WaitersJoin(Minus(front, gone), [x], mask, mode);
        assert Keep(front, gone) + [] == Keep(front, gone);
      }
    }
  }

  lemma SatisfiesRange(l: seq<nat>, mask: seq<bv32>, mode: seq<bv32>, id: bv32, gone: set<nat>)
    requires Satisfies(l, mask, mode, id, gone)
    ensures InRange(l, |mask|) && |mode| == |mask|
  {
    hide E.Satisfied;
  }

  lemma SelectNone(mask: seq<bv32>, mode: seq<bv32>, id: bv32, gone: set<nat>)
    requires |mode| == |mask|
    ensures Keep([], gone) == [] == Minus([], gone) && InRange([], |mask|)
    ensures Waiters([], mask, mode) == [] == E.Select([], id, true) && E.Select([], id, false) == []
  {
  }

  lemma KeepSnoc(front: seq<nat>, x: nat, gone: set<nat>)
    ensures Keep(front + [x], gone) == Keep(front, gone) + if x in gone then [x] else []
  {
    assert (front + [x])[..|front|] == front;
  }

  lemma One(x: nat, mask: seq<bv32>, mode: seq<bv32>)
    requires x < |mask| == |mode|
    ensures InRange([x], |mask|) && Waiters([x], mask, mode) == [E.Waiter(x, mask[x], mode[x])]
  {
  }

  lemma WaitersJoin(a: seq<nat>, b: seq<nat>, mask: seq<bv32>, mode: seq<bv32>)
    requires InRange(a, |mask|) && InRange(b, |mask|) && |mode| == |mask|
    ensures InRange(a + b, |mask|) && Waiters(a + b, mask, mode) == Waiters(a, mask, mode) + Waiters(b, mask, mode)
  {
  }

  lemma SatisfiesFront(l: seq<nat>, mask: seq<bv32>, mode: seq<bv32>, id: bv32, gone: set<nat>)
    requires Satisfies(l, mask, mode, id, gone) && l != []
    ensures Satisfies(l[..|l| - 1], mask, mode, id, gone) && l[|l| - 1] < |mask|
    ensures l[|l| - 1] in gone <==> E.Satisfied(id, mask[l[|l| - 1]], mode[l[|l| - 1]])
  {
    hide E.Satisfied;
  }

  lemma SelectLast(l: seq<nat>, mask: seq<bv32>, mode: seq<bv32>, id: bv32)
    requires |mask| == |mode| && InRange(l, |mask|) && l != []
    ensures var n := |l| - 1;
      var w, x := Waiters(l, mask, mode), E.Waiter(l[n], mask[l[n]], mode[l[n]]);
      && Waiters(l[..n], mask, mode) == w[..n]
      && InRange(l[..n], |mask|)
      && E.Select(w, id, true) == E.Select(w[..n], id, true) + (if E.Satisfied(id, x.mask, x.mode) then [x] else [])
      && E.Select(w, id, false) == E.Select(w[..n], id, false) + (if E.Satisfied(id, x.mask, x.mode) then [] else [x])
  {
    hide E.Satisfied;
    var w := Waiters(l, mask, mode);
    assert w[|l| - 1] == E.Waiter(l[|l| - 1], mask[l[|l| - 1]], mode[l[|l| - 1]]);
  }

  // ---------------------------------------------------------------- steps

  ghost function ReadRet(y: Sys, mask: bv32, mode: bv32, timeout: nat, interrupt: bool): E.Ret
    requires Shape(y)
  {
    E.ReadRet(Abs(y), mask, mode, timeout != 0, interrupt, y.k.lock != 0)
  }

  ghost function AfterRead(y: Sys, mask: bv32, mode: bv32, timeout: nat, interrupt: bool): Sys
    requires Sound(y) && May(y, Read(mask, mode, timeout, interrupt))
  {
    match ReadRet(y, mask, mode, timeout, interrupt)
    case Got(_) => y.(id := E.PollId(y.id, mask, mode))
    case Blocked => y.(k := Block(y.k, y.l, false, timeout), mask := y.mask[y.k.run := mask], mode := y.mode[y.k.run := mode])
    case _ => y
  }

  /** The tasks the test of LOS_EventWrite picks. */
  ghost function Hits(y: Sys, events: bv32): (gone: set<nat>)
    requires Shape(y)
    ensures forall i | 0 <= i < |y.k.lists[y.l]| ::
              var t := y.k.lists[y.l][i];
              t in gone <==> E.Hit(E.Waiter(t, y.mask[t], y.mode[t]), events, E.Set(y.id, events))
  {
    set t | t in y.k.lists[y.l] && t < |y.mask| && E.Hit(E.Waiter(t, y.mask[t], y.mode[t]), events, E.Set(y.id, events))
  }

  lemma WokenPend(y: Sys, gone: set<nat>)
    requires Shape(y)
    ensures var ts := Keep(y.k.lists[y.l], gone);
      Distinct(ts) && forall t <- ts :: t in y.k.lists[y.l] && t < |y.k.tcb| && y.k.St(t).pend
  {
    InvDistinct(y.k, y.l);
    KeepMembers(y.k.lists[y.l], gone);
  }

  ghost function AfterWrite(y: Sys, events: bv32): Sys
    requires Shape(y)
  {
    if E.WriteRet(events) == E.SetBitInvalid then y
    else
      var ts := Keep(y.k.lists[y.l], Hits(y, events));
      WokenPend(y, Hits(y, events));
      var k1 := WakeAll(y.k, ts);
      y.(k := if ts != [] then Reschedule(k1) else k1, id := E.Set(y.id, events), woken := y.woken + ts)
  }

  ghost function After(y: Sys, c: Call): Sys
    requires Sound(y) && May(y, c)
  {
    match c
    case Read(mask, mode, timeout, interrupt) => AfterRead(y, mask, mode, timeout, interrupt)
    case Resume(i) => y.(id := E.PollId(y.id, y.mask[y.woken[i]], y.mode[y.woken[i]]), woken := Drop(y.woken, i))
    case Poll(mask, mode) => y.(id := E.PollId(y.id, mask, mode))
    case Write(events) => AfterWrite(y, events)
    case Clear(events) => y.(id := E.Common(y.id, events))
    case Other(call) => y.(k := Apply(y.k, call))
  }

  /** The same step in module `Event`. */
  ghost function StepOf(y: Sys, c: Call): E.Step
    requires !c.Other?
  {
    match c
    case Read(mask, mode, timeout, interrupt) => E.Reads(y.k.run, mask, mode, timeout != 0, interrupt, y.k.lock != 0)
    case Resume(i) => E.Resumes(i)
    case Poll(mask, mode) => E.Polls(mask, mode)
    case Write(events) => E.Writes(events)
    case Clear(events) => E.Clears(events)
  }

  // ---------------------------------------------------------------- refinement

  lemma WaitersElsewhere(l: seq<nat>, t: nat, a: bv32, b: bv32, mask: seq<bv32>, mode: seq<bv32>)
    requires InRange(l, |mask|) && |mode| == |mask| && t < |mask| && t !in l
    ensures Waiters(l, mask[t := a], mode[t := b]) == Waiters(l, mask, mode)
  {
    forall i | 0 <= i < |l| ensures Waiters(l, mask[t := a], mode[t := b])[i] == Waiters(l, mask, mode)[i] {
      assert l[i] in l;
    }
  }

  lemma BlockList(k: State, l: nat, timeout: nat)
    requires Inv(k) && k.lock == 0 && k.run != k.idle && !k.St(k.run).timeout && 0 < timeout
    requires FIRST_WAIT <= l < |k.lists| && AllWait(k, l, false)
    ensures var k' := Block(k, l, false, timeout);
      |k'.tcb| == |k.tcb| && l < |k'.lists| && k'.lists[l] == k.lists[l] + [k.run] && AllWait(k', l, false)
  {
    RunnerNotIn(k, l);
    hide Block, HeadsBest, Inv;
    var k' := Block(k, l, false, timeout);
    forall x <- k'.lists[l] ensures x < |k'.tcb| && k'.tcb[x].st.pend && !k'.tcb[x].st.pendQueue {
      if x != k.run {
        assert x in k.lists[l] && SameWait(k, k', x);
      }
    }
  }

  lemma ReadBlocks(y: Sys, mask: bv32, mode: bv32, timeout: nat, interrupt: bool)
    requires Sound(y) && May(y, Read(mask, mode, timeout, interrupt)) && ReadRet(y, mask, mode, timeout, interrupt) == E.Blocked
    ensures var y' := AfterRead(y, mask, mode, timeout, interrupt);
      Shape(y') && Abs(y') == E.Read(Abs(y), y.k.run, mask, mode, timeout != 0, interrupt, y.k.lock != 0)
  {
    hide Inv, AllWait, Waiters, InRange, Block, E.Ok, E.PollRet, E.FlagsOk, E.AnyOf;
    RunnerNotIn(y.k, y.l);
    BlockList(y.k, y.l, timeout);
    var run, a, b := y.k.run, y.mask[y.k.run := mask], y.mode[y.k.run := mode];
    WaitersElsewhere(y.k.lists[y.l], run, mask, mode, y.mask, y.mode);
    WaitersElsewhere(y.woken, run, mask, mode, y.mask, y.mode);
    One(run, a, b);
    WaitersJoin(y.k.lists[y.l], [run], a, b);
  }

  lemma ReadQuiet(y: Sys, mask: bv32, mode: bv32, timeout: nat, interrupt: bool)
    requires Sound(y) && May(y, Read(mask, mode, timeout, interrupt)) && ReadRet(y, mask, mode, timeout, interrupt) != E.Blocked
    ensures var y' := AfterRead(y, mask, mode, timeout, interrupt);
      Shape(y') && Abs(y') == E.Read(Abs(y), y.k.run, mask, mode, timeout != 0, interrupt, y.k.lock != 0)
  {
    hide Inv, AllWait, Waiters, InRange, E.Ok, E.ReadRet, E.PollId;
  }

  lemma HitsSatisfied(y: Sys, events: bv32)
    requires Sound(y)
    ensures Satisfies(y.k.lists[y.l], y.mask, y.mode, E.Set(y.id, events), Hits(y, events))
  {
    hide Inv, AllWait, E.Satisfied, E.Set, E.Proper, E.Hit;
    var l := y.k.lists[y.l];
    forall i | 0 <= i < |l| ensures l[i] in Hits(y, events) <==> E.Satisfied(E.Set(y.id, events), y.mask[l[i]], y.mode[l[i]]) {
      var w := E.Waiter(l[i], y.mask[l[i]], y.mode[l[i]]);
      assert Abs(y).waiters[i] == w && w in Abs(y).waiters;
      E.WriteTestExact(w, events, y.id);
    }
  }

  lemma WokenList(y: Sys, gone: set<nat>)
    requires Shape(y)
    ensures var ts := Keep(y.k.lists[y.l], gone);
      && Distinct(ts) && (forall t <- ts :: t < |y.k.tcb| && y.k.St(t).pend)
      && var k1 := WakeAll(y.k, ts);
         && k1.lists[y.l] == Minus(y.k.lists[y.l], gone) && AllWait(k1, y.l, false)
  {
    WokenPend(y, gone);
    InvDistinct(y.k, y.l);
    KeepMembers(y.k.lists[y.l], gone);
    var ts := Keep(y.k.lists[y.l], gone);
    hide Inv, Keep, AllWait, WakeAll, Minus, Distinct;
    var chosen := set t | t in ts;
    WakeAllList(y.k, y.l, ts, chosen);
    MinusSame(y.k.lists[y.l], chosen, gone);
  }

  lemma {:induction false} MinusSame(l: seq<nat>, a: set<nat>, b: set<nat>)
    requires forall t <- l :: t in a <==> t in b
    ensures Minus(l, a) == Minus(l, b)
  {
    if l != [] {
      assert l[0] in l && forall t <- l[1..] :: t in l;
      MinusSame(l[1..], a, b);
    }
  }

  lemma ScheduleKeepsList(k: State, l: nat)
    requires Inv(k) && FIRST_WAIT <= l < |k.lists| && AllWait(k, l, false)
    ensures var k' := Reschedule(k);
      |k'.tcb| == |k.tcb| && l < |k'.lists| && k'.lists[l] == k.lists[l] && AllWait(k', l, false)
  {
    hide Reschedule, HeadsBest, LinksOk, TaskOk;
    forall x <- k.lists[l] ensures Reschedule(k).tcb[x].st.pend && !Reschedule(k).tcb[x].st.pendQueue {
      assert SameWait(k, Reschedule(k), x);
    }
  }

  lemma WriteRefines(y: Sys, events: bv32)
    requires Sound(y)
    ensures var y' := AfterWrite(y, events);
      Shape(y') && Abs(y') == E.Write(Abs(y), events)
  {
    hide Inv, AllWait, Waiters, InRange, WakeAll, Reschedule, Keep, Minus, Distinct, Hits, E.Ok, E.Set, E.WriteRet, E.Select, Satisfies;
    if E.WriteRet(events) != E.SetBitInvalid {
      var gone, id := Hits(y, events), E.Set(y.id, events);
      var ts := Keep(y.k.lists[y.l], gone);
      HitsSatisfied(y, events);
      SelectTasks(y.k.lists[y.l], y.mask, y.mode, id, gone);
      WokenList(y, gone);
      ScheduleKeepsList(WakeAll(y.k, ts), y.l);
      WaitersJoin(y.woken, ts, y.mask, y.mode);
    }
  }

  lemma ResumeRefines(y: Sys, i: nat)
    requires Sound(y) && May(y, Resume(i))
    ensures var y' := After(y, Resume(i));
      Shape(y') && i < |Abs(y).woken| && Abs(y') == E.Resume(Abs(y), i)
  {
    hide Inv, AllWait, E.Ok, E.PollId;
    var l := y.woken;
    forall j | 0 <= j < |Drop(l, i)| ensures Drop(l, i)[j] == l[if j < i then j else j + 1] {
    }
  }

  /** The same group, with some waiters gone. */
  ghost predicate LosesWaiters(y: Sys, y': Sys)
    requires Shape(y) && Shape(y')
  {
    y' == y.(k := y'.k) && Thinner(y.k.lists[y.l], y'.k.lists[y.l])
  }

  lemma SubWaiters(l: seq<nat>, l': seq<nat>, mask: seq<bv32>, mode: seq<bv32>)
    requires InRange(l, |mask|) && |mode| == |mask| && Thinner(l, l')
    ensures InRange(l', |mask|) && forall w <- Waiters(l', mask, mode) :: w in Waiters(l, mask, mode)
  {
    ThinnerMeans(l, l');
    hide Thinner;
    forall i | 0 <= i < |l'| ensures l'[i] < |mask| {
      assert l'[i] in l;
    }
    forall w <- Waiters(l', mask, mode) ensures w in Waiters(l, mask, mode) {
      var i :| 0 <= i < |l'| && Waiters(l', mask, mode)[i] == w;
      assert l'[i] in l;
      var j :| 0 <= j < |l| && l[j] == l'[i];
      assert Waiters(l, mask, mode)[j] == w;
    }
  }

  lemma OtherKeeps(y: Sys, call: Op)
    requires Sound(y) && May(y, Other(call))
    ensures Sound(After(y, Other(call))) && LosesWaiters(y, After(y, Other(call)))
  {
    SizesKept(y.k, call);
    hide Inv, AllWait, Waiters, InRange, Apply, E.Ok, E.Within;
    var k' := Apply(y.k, call);
    var gone := ForeignOnlyDrops(y.k, call, y.l);
    assert Thinner(y.k.lists[y.l], k'.lists[y.l]);
    ForeignKeepsWaiting(y.k, call, y.l, false);
    SubWaiters(y.k.lists[y.l], k'.lists[y.l], y.mask, y.mode);
    E.OffTakes(y.id, 0);
    E.LessOk(Abs(y), Abs(y.(k := k')));
  }

  /** Every step of the running system is, for the group, a step as `Event` defines it,
      or takes some waiters out. */
  lemma StepRefines(y: Sys, c: Call)
    requires Sound(y) && May(y, c)
    ensures var y' := After(y, c);
      && Sound(y')
      && if c.Other? then LosesWaiters(y, y') else E.Enabled(Abs(y), StepOf(y, c)) && Abs(y') == E.Next(Abs(y), StepOf(y, c))
  {
    hide Inv, AllWait, Waiters, InRange, E.Ok, E.PollId, E.Common, E.Write, E.Read, AfterRead, AfterWrite, Apply, Foreign;
    match c
    case Read(mask, mode, timeout, interrupt) =>
      if ReadRet(y, mask, mode, timeout, interrupt) == E.Blocked {
        ReadBlocks(y, mask, mode, timeout, interrupt);
      } else {
        ReadQuiet(y, mask, mode, timeout, interrupt);
      }
      E.StepOk(Abs(y), StepOf(y, c));
    case Resume(i) =>
      ResumeRefines(y, i);
      E.StepOk(Abs(y), StepOf(y, c));
    case Write(events) =>
      WriteRefines(y, events);
      E.StepOk(Abs(y), StepOf(y, c));
    case Other(call) => OtherKeeps(y, call);
    case _ => E.StepOk(Abs(y), StepOf(y, c));
  }

  // ---------------------------------------------------------------- what a caller sees

  /** A read in the running system, field by field: the bits that are set are its answer
      as soon as its condition holds, whatever the timeout and the lock; a caller that
      has to wait is last in the kernel's list with its timeout on the wheel. */
  lemma ReadAnswers(y: Sys, mask: bv32, mode: bv32, timeout: nat, interrupt: bool)
    requires Sound(y) && May(y, Read(mask, mode, timeout, interrupt))
    requires mask != 0 && !E.AnyOf(mask, E.ERRTYPE_ERROR) && mode in {2, 3, 4, 5} && !interrupt
    ensures var r, y' := ReadRet(y, mask, mode, timeout, interrupt), After(y, Read(mask, mode, timeout, interrupt));
      if E.There(y.id, mask, mode) then r == E.Got(E.Common(y.id, mask)) && y' == y.(id := E.Left(y.id, mask, mode))
      else if timeout == 0 then r == E.Got(0) && y' == y
      else if y.k.lock != 0 then r == E.ReadInLock && y' == y
      else
        && r == E.Blocked && y' == y.(k := y'.k, mask := y.mask[y.k.run := mask], mode := y.mode[y.k.run := mode])
        && y.l < |y'.k.lists| && y'.k.lists[y.l] == y.k.lists[y.l] + [y.k.run]
        && WaitsIn(y'.k, y.k.run, y.l, false, timeout) && HeadsBest(y'.k, y'.k.run)
  {
    E.ReadAnswers(Abs(y), y.k.run, mask, mode, timeout != 0, interrupt, y.k.lock != 0);
    hide Inv, AllWait, Block, E.Ok, E.FlagsOk, E.AnyOf, E.There, E.PollRet, E.PollId, E.Left, E.Common, Waiters;
    if ReadRet(y, mask, mode, timeout, interrupt) != E.Blocked {
      AfterReadId(y, mask, mode, timeout, interrupt);
    }
  }

  lemma AfterReadId(y: Sys, mask: bv32, mode: bv32, timeout: nat, interrupt: bool)
    requires Sound(y) && May(y, Read(mask, mode, timeout, interrupt)) && ReadRet(y, mask, mode, timeout, interrupt) != E.Blocked
    ensures var y' := AfterRead(y, mask, mode, timeout, interrupt);
      y' == y.(id := E.Read(Abs(y), y.k.run, mask, mode, timeout != 0, interrupt, y.k.lock != 0).id)
  {
    hide Inv, AllWait, Waiters, E.Ok, E.ReadRet, E.PollId;
  }

  // ---------------------------------------------------------------- runs

  lemma StillNotWaiting(k: State, k': State, who: set<nat>, lists: set<int>, x: nat)
    requires WaitsKept(k, k', who, lists) && x !in who && NotWaiting(k, x)
    ensures NotWaiting(k', x)
  {
    assert SameWait(k, k', x);
  }

  /** Tasks woken in turn wait for nothing afterwards. */
  lemma {:induction false} WakeAllWoken(k: State, ts: seq<nat>)
    requires Inv(k) && Distinct(ts) && forall t <- ts :: t < |k.tcb| && k.St(t).pend
    ensures WakeAll(k, ts).lock == k.lock && InvBeforeSchedule(WakeAll(k, ts))
    ensures forall x | x in ts || NotWaiting(k, x) :: NotWaiting(WakeAll(k, ts), x)
    decreases |ts|
  {
    if ts != [] {
      var t := ts[0];
      assert t in ts;
      WakeAllFirst(k, ts);
      GrantLock(k, t);
      var k1 := Grant(k, t, false);
      hide Grant, Inv, WakeAll, NotWaiting, WaitsKept, Distinct;
      TailDistinct(ts);
      WakeAllWoken(k1, ts[1..]);
      forall x | x in ts || NotWaiting(k, x) ensures NotWaiting(WakeAll(k, ts), x) {
        if x != t && x !in ts[1..] {
          StillNotWaiting(k, k1, {t}, {k.link[t]}, x);
        }
      }
    }
  }

  lemma TailDistinct(l: seq<nat>)
    requires Distinct(l) && l != []
    ensures Distinct(l[1..])
  {
  }

  lemma GrantLock(k: State, t: nat)
    requires Inv(k) && t < |k.tcb| && k.St(t).pend
    ensures Grant(k, t, false).lock == k.lock
  {
  }

  lemma {:induction false} MinusMembers(l: seq<nat>, gone: set<nat>)
    ensures forall t :: t in Minus(l, gone) <==> t in l && t !in gone
  {
    if l != [] {
      MinusMembers(l[1..], gone);
      assert l == [l[0]] + l[1..];
    }
  }

  /** A write in the running system: the word gets the bits; of the tasks in the kernel's
      list those whose condition holds now wait no more and the others stay; if the
      right task was running, the right task runs afterwards. */
  lemma WriteAnswers(y: Sys, events: bv32)
    requires Sound(y) && !E.AnyOf(events, E.ERRTYPE_ERROR)
    ensures var y', l, id := After(y, Write(events)), y.k.lists[y.l], E.Set(y.id, events);
      && y' == y.(k := y'.k, id := id, woken := y'.woken) && y.l < |y'.k.lists|
      && (forall t :: t in y'.k.lists[y.l] <==> t in l && !E.There(id, y.mask[t], y.mode[t]))
      && (forall t <- l | E.There(id, y.mask[t], y.mode[t]) :: NotWaiting(y'.k, t) && t in y'.woken)
      && |y'.woken| == |y.woken| + |l| - |y'.k.lists[y.l]| && y.woken <= y'.woken
      && (y.k.lock == 0 && HeadsBest(y.k, y.k.run) ==> HeadsBest(y'.k, y'.k.run))
  {
    hide Inv, AllWait, WakeAll, Reschedule, Minus, Keep, Hits, HeadsBest, WaitsKept, NotWaiting, E.Ok, E.Set, E.There, E.AnyOf, Waiters;
    WriteOpens(events);
    var l, id, gone := y.k.lists[y.l], E.Set(y.id, events), Hits(y, events);
    var ts := Keep(l, gone);
    WokenPend(y, gone);
    WokenList(y, gone);
    WakeAllWoken(y.k, ts);
    var k1 := WakeAll(y.k, ts);
    InvDistinct(y.k, y.l);
    KeepMembers(l, gone);
    MinusMembers(l, gone);
    KeepSize(l, gone);
    forall t <- l ensures t in gone <==> E.There(id, y.mask[t], y.mode[t]) {
      HitIsThere(y, events, t);
    }
    if ts == [] {
      WakeNone(y.k);
    } else {
      ScheduleKeepsList(k1, y.l);
      forall t <- ts ensures NotWaiting(Reschedule(k1), t) {
        StillNotWaiting(k1, Reschedule(k1), {}, {}, t);
      }
    }
  }

  lemma WriteOpens(events: bv32)
    ensures E.WriteRet(events) == if E.AnyOf(events, E.ERRTYPE_ERROR) then E.SetBitInvalid else E.Done
  {
    hide E.AnyOf;
  }

  lemma {:induction false} KeepSize(l: seq<nat>, gone: set<nat>)
    ensures |Keep(l, gone)| + |Minus(l, gone)| == |l|
  {
    if l != [] {
      var n := |l| - 1;
      KeepSize(l[..n], gone);
      MinusSnoc(l[..n], l[n], gone);
      assert l[..n] + [l[n]] == l;
    }
  }

  lemma HitIsThere(y: Sys, events: bv32, t: nat)
    requires Sound(y) && t in y.k.lists[y.l]
    ensures t in Hits(y, events) <==> E.There(E.Set(y.id, events), y.mask[t], y.mode[t])
  {
    HitsSatisfied(y, events);
    hide Inv, AllWait, E.Satisfied, E.Set, E.Proper, E.There, Hits;
    var i :| 0 <= i < |y.k.lists[y.l]| && y.k.lists[y.l][i] == t;
    var w := E.Waiter(t, y.mask[t], y.mode[t]);
    assert Abs(y).waiters[i] == w && w in Abs(y).waiters;
    E.ConditionAnswers(E.Set(y.id, events), w);
  }

  ghost predicate StepTo(y: Sys, c: Call, y': Sys) {
    Sound(y) && May(y, c) && y' == After(y, c)
  }

  ghost predicate IsRun(states: seq<Sys>, calls: seq<Call>) {
    && |states| == |calls| + 1 && Sound(states[0])
    && forall i | 0 <= i < |calls| :: StepTo(states[i], calls[i], states[i + 1])
  }

  /** No lost wake-up in the running system: in every state it reaches, no task sits in
      the wait list of the group while a poll with its mask and mode would succeed. */
  lemma {:induction false} NoLostWakeUp(states: seq<Sys>, calls: seq<Call>, n: nat)
    requires IsRun(states, calls) && n <= |calls|
    ensures Sound(states[n])
    ensures forall i | 0 <= i < |states[n].k.lists[states[n].l]| ::
              var t := states[n].k.lists[states[n].l][i];
              E.PollRet(states[n].id, states[n].mask[t], states[n].mode[t]) == 0
  {
    hide Sound, After, May, E.PollRet;
    if n > 0 {
      NoLostWakeUp(states, calls, n - 1);
      assert StepTo(states[n - 1], calls[n - 1], states[n - 1 + 1]);
      StepRefines(states[n - 1], calls[n - 1]);
    }
    NobodySatisfied(states[n]);
  }

  lemma NobodySatisfied(y: Sys)
    requires Sound(y)
    ensures y.l < |y.k.lists| && |y.mode| == |y.mask| && InRange(y.k.lists[y.l], |y.mask|)
    ensures forall i | 0 <= i < |y.k.lists[y.l]| ::
              E.PollRet(y.id, y.mask[y.k.lists[y.l][i]], y.mode[y.k.lists[y.l][i]]) == 0
  {
    hide Inv, AllWait, E.PollRet, E.Satisfied, E.Proper;
    var l := y.k.lists[y.l];
    forall i | 0 <= i < |l| ensures E.PollRet(y.id, y.mask[l[i]], y.mode[l[i]]) == 0 {
      assert Abs(y).waiters[i] in Abs(y).waiters;
      E.PollMeans(y.id, y.mask[l[i]], y.mode[l[i]]);
    }
  }
}
