/** How the wait list of one object changes while the rest of the system runs: members
    leave it one by one, and nothing else happens to it. */
module WaitLists {
  import opened Tasks
  import opened Kernel
  import Wheel = TaskWheel

  // ---------------------------------------------------------------- losing waiters one by one

  /** `l` after its members at the places `gone` have been taken out one by one. */
  function Drops(l: seq<nat>, gone: seq<nat>): seq<nat> {
    if gone == [] then l
    else if gone[0] < |l| then Drops(l[..gone[0]] + l[gone[0] + 1..], gone[1..])
    else Drops(l, gone[1..])
  }

  lemma {:induction false} WithoutPlace(l: seq<nat>, t: nat) returns (gone: seq<nat>)
    requires Distinct(l)
    ensures |gone| <= 1 && Drops(l, gone) == Without(l, t)
    ensures gone != [] ==> gone[0] < |l|
  {
    if l == [] {
      gone := [];
    } else if l[0] == t {
      gone := [0];
      assert Drops(l, gone) == Drops(l[..0] + l[1..], gone[1..]) == l[1..];
    } else {
      var rest := WithoutPlace(l[1..], t);
      if rest == [] {
        gone := [];
        assert Without(l, t) == [l[0]] + l[1..] == l;
      } else {
        gone := [rest[0] + 1];
        var i := rest[0];
        assert Drops(l[1..], rest) == Drops(l[1..][..i] + l[1..][i + 1..], rest[1..]) == l[1..][..i] + l[1..][i + 1..];
        assert Drops(l, gone) == Drops(l[..i + 1] + l[i + 2..], gone[1..]) == l[..i + 1] + l[i + 2..];
        assert [l[0]] + (l[1..][..i] + l[1..][i + 1..]) == l[..i + 1] + l[i + 2..];
      }
    }
  }

  lemma {:induction false} DropsThenDrops(l: seq<nat>, a: seq<nat>, b: seq<nat>)
    ensures Drops(Drops(l, a), b) == Drops(l, a + b)
  {
    if a == [] {
      assert a + b == b;
    } else {
      assert (a + b)[0] == a[0] && (a + b)[1..] == a[1..] + b;
      DropsThenDrops(if a[0] < |l| then l[..a[0]] + l[a[0] + 1..] else l, a[1..], b);
    }
  }

  /** What a tick takes out of a list can be taken out one by one. */
  lemma {:induction false} MinusPlaces(l: seq<nat>, released: seq<nat>, gone: set<nat>) returns (places: seq<nat>)
    requires Distinct(l) && gone == set t | t in released
    ensures Drops(l, places) == Minus(l, gone)
    decreases |released|
  {
    if released == [] {
      places := [];
      assert gone == {};
      WithoutMinus(l, 0, {});
    } else {
      var t, rest := released[0], set x | x in released[1..];
      assert gone == rest + {t};
      WithoutMinus(l, t, rest);
      WithoutMembers(l, t);
      var first := WithoutPlace(l, t);
      var more := MinusPlaces(Without(l, t), released[1..], rest);
      places := first + more;
      DropsThenDrops(l, first, more);
    }
  }

  // ---------------------------------------------------------------- the rest of the system

  lemma Member(k: State, l: nat, t: nat)
    requires Inv(k) && l < |k.lists| && t in k.lists[l]
    ensures t < |k.tcb| && k.link[t] == l && TaskOk(k, t) && TaskOk(k, k.run)
  {
    assert ListOk(k.lists[l], l, k.link);
  }

  /** A task that keeps its place in a wait list keeps waiting as it did. */
  lemma StaysWaiting(k: State, op: Op, l: nat, t: nat)
    requires Inv(k) && Enabled(k, op) && FIRST_WAIT <= l < |k.lists| && l < |Apply(k, op).lists|
    requires t in k.lists[l] && t in Apply(k, op).lists[l] && !(op.OpGrant? && op.task == t)
    ensures t < |k.tcb| && t < |Apply(k, op).tcb|
    ensures k.tcb[t].st.pend == Apply(k, op).tcb[t].st.pend && k.tcb[t].st.pendQueue == Apply(k, op).tcb[t].st.pendQueue
  {
    Member(k, l, t);
    Member(Apply(k, op), l, t);
    hide Apply, Inv, LinksOk, Enabled;
    if op.OpTick? {
      TickKeepsWaiting(k, op.released, l, t);
    } else if op.OpDelete? && op.task == t {
      DeletedIsOut(k, l, t);
    } else {
      NotItself(k, op, t);
      OtherStepKept(k, op, t);
    }
  }

  lemma NotItself(k: State, op: Op, t: nat)
    requires Inv(k) && Enabled(k, op) && t < |k.tcb| && TaskOk(k, t) && FIRST_WAIT <= k.link[t] && !(op.OpDelete? && op.task == t)
    ensures !Interferes(k, op, t) && !k.St(t).unused
  {
  }

  lemma TickKeepsWaiting(k: State, released: seq<nat>, l: nat, t: nat)
    requires Inv(k) && Enabled(k, OpTick(released)) && FIRST_WAIT <= l < |k.lists|
    requires t in k.lists[l] && t < |k.tcb| && t in Apply(k, OpTick(released)).lists[l]
    ensures var k' := Apply(k, OpTick(released));
      t < |k'.tcb| && k.tcb[t].st.pend == k'.tcb[t].st.pend && k.tcb[t].st.pendQueue == k'.tcb[t].st.pendQueue
  {
    hide Scan, Inv;
    if t in released {
      ReleasedIsOut(k, released, l, t);
    } else {
      ScanEffect(k, released);
      assert SameWait(k.(wheel := Wheel.TickDown(k.wheel)), Scan(k, released), t);
    }
  }

  lemma ReleasedIsOut(k: State, released: seq<nat>, l: nat, t: nat)
    requires Inv(k) && Wheel.Expiring(k.wheel, released) && FIRST_WAIT <= l < |k.lists| && t in released
    ensures l < |Scan(k, released).lists| && t !in Scan(k, released).lists[l]
  {
    hide Scan, Inv;
    ScanEffect(k, released);
    var k' := Scan(k, released);
    assert Released(k, k', t);
    TaskInList(k', l, t);
  }

  lemma TaskInList(k: State, l: nat, t: nat)
    requires Inv(k) && FIRST_WAIT <= l < |k.lists| && t < |k.tcb|
    ensures t in k.lists[l] ==> k.St(t).pend || k.St(t).pendQueue
  {
    assert ListOk(k.lists[l], l, k.link) && TaskOk(k, t);
  }

  /** The only way to stay in the list after being deleted is that the deletion was
      refused. */
  lemma DeletedIsOut(k: State, l: nat, t: nat)
    requires Inv(k) && Enabled(k, OpDelete(t)) && FIRST_WAIT <= l < |k.lists|
    requires t in k.lists[l] && t < |k.tcb| && t in Apply(k, OpDelete(t)).lists[l]
    ensures Apply(k, OpDelete(t)) == k
  {
    Member(k, l, t);
    if DeleteRet(k, t) == Tasks.Ok {
      DiscardKept(k, t);
      assert ListOk(k.lists[l], l, k.link);
      WithoutMembers(k.lists[l], t);
    }
  }

  /** The step belongs to some other object: it neither blocks a task on list `l` nor
      wakes one that waits there. */
  ghost predicate Foreign(k: State, op: Op, l: nat) {
    && Inv(k) && Enabled(k, op) && FIRST_WAIT <= l < |k.lists|
    && (op.OpBlock? ==> op.list != l)
    && (op.OpGrant? ==> k.link[op.task] != l)
  }

  /** Such a step can only take waiters out. */
  lemma ForeignOnlyDrops(k: State, op: Op, l: nat) returns (gone: seq<nat>)
    requires Foreign(k, op, l)
    ensures l < |Apply(k, op).lists| && Apply(k, op).lists[l] == Drops(k.lists[l], gone)
  {
    WaitListSteps(k, op, l);
    assert ListOk(k.lists[l], l, k.link);
    hide Apply, Inv, LinksOk, ListOk;
    gone := [];
    if op.OpTick? {
      gone := MinusPlaces(k.lists[l], op.released, set t | t in op.released);
    } else if op.OpDelete? && Apply(k, op).lists[l] != k.lists[l] {
      gone := WithoutPlace(k.lists[l], op.task);
    }
  }

  lemma {:induction false} DropsMembers(l: seq<nat>, gone: seq<nat>)
    ensures forall t <- Drops(l, gone) :: t in l
  {
    if gone != [] {
      var m := if gone[0] < |l| then l[..gone[0]] + l[gone[0] + 1..] else l;
      DropsMembers(m, gone[1..]);
      assert forall t <- m :: t in l;
    }
  }

  /** Everyone in list `l` waits there, for a queue or for another kind of object. */
  ghost predicate AllWait(k: State, l: nat, queue: bool)
    requires l < |k.lists|
  {
    forall t <- k.lists[l] :: t < |k.tcb| && k.tcb[t].st.pend == !queue && k.tcb[t].st.pendQueue == queue
  }

  /** After a step of another object those left in the list still wait as they did. */
  lemma ForeignKeepsWaiting(k: State, op: Op, l: nat, queue: bool)
    requires Foreign(k, op, l) && AllWait(k, l, queue)
    ensures l < |Apply(k, op).lists| && AllWait(Apply(k, op), l, queue)
  {
    hide Inv, Enabled, Apply;
    var gone := ForeignOnlyDrops(k, op, l);
    DropsMembers(k.lists[l], gone);
    var k' := Apply(k, op);
    hide Foreign;
    forall t <- k'.lists[l] ensures t < |k'.tcb| && k'.tcb[t].st.pend == !queue && k'.tcb[t].st.pendQueue == queue {
      ForeignTask(k, op, l, t);
      StaysWaiting(k, op, l, t);
    }
  }

  lemma ForeignTask(k: State, op: Op, l: nat, t: nat)
    requires Foreign(k, op, l) && t in k.lists[l]
    ensures Inv(k) && Enabled(k, op) && FIRST_WAIT <= l < |k.lists| && t < |k.tcb| && !(op.OpGrant? && op.task == t)
  {
    Member(k, l, t);
  }

  /** Some waiters are gone, the others are as before. */
  ghost predicate Thinner(l: seq<nat>, l': seq<nat>) {
    exists gone :: l' == Drops(l, gone)
  }

  lemma ThinnerMeans(l: seq<nat>, l': seq<nat>)
    requires Thinner(l, l')
    ensures forall t <- l' :: t in l
  {
    var gone :| l' == Drops(l, gone);
    DropsMembers(l, gone);
  }

  lemma InvDistinct(k: State, l: nat)
    requires Inv(k) && l < |k.lists|
    ensures Distinct(k.lists[l])
  {
    assert ListOk(k.lists[l], l, k.link);
  }

  /** The running task waits nowhere. */
  lemma RunnerNotIn(k: State, l: nat)
    requires Inv(k) && FIRST_WAIT <= l < |k.lists|
    ensures k.run !in k.lists[l] && k.run < |k.tcb|
  {
    TaskInList(k, l, k.run);
    assert TaskOk(k, k.run);
  }

  lemma SizesKept(k: State, op: Op)
    requires Inv(k) && Enabled(k, op)
    ensures |Apply(k, op).tcb| == |k.tcb| && |Apply(k, op).lists| == |k.lists|
  {
    hide Block, Grant, Scan, Reschedule, Suspend, Resume, Yield, Delay, PriSet, SetPrio, Unlock, Create, Delete, ClearTimeout, HeadsBest, Without, SameWait;
    if op.OpLock? {
      LockFrame(k, LockStep(k).lock);
    }
  }

  // ---------------------------------------------------------------- lists of tasks

  ghost predicate InRange(l: seq<nat>, n: nat) {
    forall i | 0 <= i < |l| :: l[i] < n
  }

  function Drop(l: seq<nat>, i: nat): seq<nat>
    requires i < |l|
  {
    l[..i] + l[i + 1..]
  }
}
