/** Lent priorities in the running system: the laws of `Nesting` for the priorities in
    the task control blocks, stated on the states and calls of the system alone. */
module NestingRuns {
  import opened Tasks
  import opened MuxOnTasks
  import opened MuxRuns
  import M = Mutex
  import I = Inheritance
  import N = Nesting

  // ---------------------------------------------------------------- who owns what

  ghost predicate Owns(y: System, t: nat, m: nat) {
    m < |y.cells| && y.cells[m].count > 0 && y.cells[m].owner == t
  }

  ghost predicate OwnsNothing(y: System, t: nat) {
    forall m: nat :: !Owns(y, t, m)
  }

  ghost predicate OwnsJust(y: System, t: nat, m: nat) {
    Owns(y, t, m) && forall x: nat :: Owns(y, t, x) ==> x == m
  }

  lemma OwnsHeld(y: System, k: I.Track, t: nat, m: nat)
    requires Fits(y, k) && t < |k.held|
    ensures m in k.held[t] <==> Owns(y, t, m)
  {
    hide M.Ok, Inv;
    assert I.TaskOk(k, t);
    if m < |y.cells| {
      assert k.s.mux[m] == View(y.k, y.cells[m]);
    }
  }

  lemma HeldIs(y: System, k: I.Track, t: nat)
    requires Fits(y, k) && t < |k.held|
    ensures OwnsNothing(y, t) <==> k.held[t] == []
    ensures forall m: nat :: OwnsJust(y, t, m) <==> k.held[t] == [m]
  {
    assert M.Distinct(k.held[t]) by {
      assert I.TaskOk(k, t);
    }
    hide Fits, Owns;
    forall m: nat ensures m in k.held[t] <==> Owns(y, t, m) {
      OwnsHeld(y, k, t, m);
    }
    forall m: nat ensures OwnsJust(y, t, m) <==> k.held[t] == [m] {
      OneHeld(k.held[t], m);
    }
    if k.held[t] != [] {
      assert k.held[t][0] in k.held[t];
    }
  }

  lemma OneHeld(l: seq<nat>, m: nat)
    requires M.Distinct(l)
    ensures l == [m] <==> m in l && forall x: nat :: x in l ==> x == m
  {
    assert |l| > 1 ==> l[0] in l && l[1] in l && l[0] != l[1];
  }

  // ---------------------------------------------------------------- what is lent

  ghost predicate BlocksOn(y: System, c: MuxCall, m: nat) {
    c.MuxPend? && c.m == m && ListsExist(y) && PendRet(y, m, c.timeout, c.interrupt).Blocked?
  }

  /** The priority lent through `m` by the call in state `y`, if any. */
  ghost function LentBy(y: System, c: MuxCall, m: nat): seq<nat> {
    if BlocksOn(y, c, m) && y.k.run < |y.k.tcb| then [y.k.tcb[y.k.run].prio] else []
  }

  /** The priorities of the tasks that block on `m` in calls `i` to `j - 1`. */
  ghost function LentDuring(states: seq<System>, calls: seq<MuxCall>, m: nat, i: nat, j: nat): seq<nat> {
    if i < j <= |calls| && j <= |states| then
      LentDuring(states, calls, m, i, j - 1) + LentBy(states[j - 1], calls[j - 1], m)
    else []
  }

  /** What the design promises the owner of `m` in state `n`, if it acquired `m` on the
      way to state `a`. */
  ghost function Promised(states: seq<System>, calls: seq<MuxCall>, m: nat, a: nat, n: nat): nat
    requires n < |states| && m < |states[n].cells|
  {
    I.Best(states[n].cells[m].saved, LentDuring(states, calls, m, a, n))
  }

  /** Task `t` acquires `m` on the way to state `a` and owns it up to state `n`. */
  ghost predicate Tenure(states: seq<System>, t: nat, m: nat, a: nat, n: nat) {
    && 0 < a <= n < |states| && !Owns(states[a - 1], t, m)
    && forall x | a <= x <= n :: Owns(states[x], t, m)
  }

  lemma FollowLends(y: System, k: I.Track, c: MuxCall, t: nat, m: nat)
    requires Fits(y, k) && Possible(y, k, c, t) && Fits(After(y, c), Follow(y, k, c, t))
    requires t < |k.held| && t < |Follow(y, k, c, t).held| && m in k.held[t] && m in Follow(y, k, c, t).held[t]
    requires N.Both(k, Follow(y, k, c, t), t)
    ensures var k' := Follow(y, k, c, t);
      && m < |k.lent| && m < |k'.lent| && y.k.run < |y.k.tcb|
      && k'.lent[m] == k.lent[m] + LentBy(y, c, m)
  {
    RunnerIndex(y.k);
    assert I.TaskOk(k, t) && I.Holds(k, t, m);
    hide Inv, M.Ok, After, Sound, I.TrackOk, I.Next;
    if !c.Rest? {
      EventEnabled(y, k, c);
      N.StepLends(k, EventOf(y, c), t, m);
    }
  }

  // ---------------------------------------------------------------- steps

  lemma FollowMoves(y: System, k: I.Track, c: MuxCall, t: nat)
    requires Fits(y, k) && Possible(y, k, c, t) && t < |k.held|
    ensures N.Moves(k, Follow(y, k, c, t), t)
  {
    FollowFits(y, k, c, t);
    var k' := Follow(y, k, c, t);
    if c.Rest? {
      StepRefinesMutex(y, c);
      forall m: nat ensures N.MovesOn(k, k', t, m) {
        assert I.TaskOk(k, t);
        hide Inv, M.Ok, After, Sound, I.TrackOk;
        RestMovesOn(k, k', t, m);
      }
    } else {
      hide Inv, M.Ok, After, Sound, I.TrackOk, N.MovesOn, I.Next;
      EventEnabled(y, k, c);
      N.StepMoves(k, EventOf(y, c), t);
    }
  }

  lemma RestMovesOn(k: I.Track, k': I.Track, t: nat, m: nat)
    requires N.Both(k, k', t) && k' == k.(s := k'.s) && LosesWaiters(k.s, k'.s) && Benign(k, k'.s, t)
    ensures N.MovesOn(k, k', t, m)
  {
    assert I.TaskOk(k, t) && (m in k.held[t] ==> I.Holds(k, t, m));
    N.QuietMoves(k, k', t, m);
  }

  // ---------------------------------------------------------------- runs

  lemma Lengths(states: seq<System>, records: seq<I.Track>, calls: seq<MuxCall>, t: nat)
    requires IsRun(states, records, calls, t)
    ensures |states| == |records| == |calls| + 1
  {
  }

  lemma {:induction false} RunFits(states: seq<System>, records: seq<I.Track>, calls: seq<MuxCall>, t: nat, n: nat)
    requires IsRun(states, records, calls, t) && n <= |calls| && t < |states[0].k.tcb|
    ensures Fits(states[n], records[n]) && t < |records[n].held|
  {
    hide Sound, After, Follow, Possible, I.TrackOk, NoneHeld;
    if n == 0 {
      EmptyRecordOk(states[0]);
    } else {
      RunFits(states, records, calls, t, n - 1);
      assert StepTo(states[n - 1], records[n - 1], calls[n - 1], states[n - 1 + 1], records[n - 1 + 1], t);
      FollowFits(states[n - 1], records[n - 1], calls[n - 1], t);
      FollowMoves(states[n - 1], records[n - 1], calls[n - 1], t);
    }
  }

  lemma RunIsHistory(states: seq<System>, records: seq<I.Track>, calls: seq<MuxCall>, t: nat)
    requires IsRun(states, records, calls, t) && t < |states[0].k.tcb|
    ensures N.History(records, t)
  {
    hide Sound, After, Follow, Possible, I.TrackOk, NoneHeld, Fits, N.Moves;
    RunFits(states, records, calls, t, 0);
    assert I.TrackOk(records[0]) by { FitsTrack(states[0], records[0]); }
    forall i | 0 <= i < |calls| ensures N.Moves(records[i], records[i + 1], t) {
      RunFits(states, records, calls, t, i);
      assert StepTo(states[i], records[i], calls[i], states[i + 1], records[i + 1], t);
      FollowMoves(states[i], records[i], calls[i], t);
    }
  }

  lemma FitsTrack(y: System, k: I.Track)
    requires Fits(y, k)
    ensures I.TrackOk(k)
  {
    hide Sound, I.TrackOk;
  }

  /** One state of a run, seen from the record and from the system. */
  lemma SameView(states: seq<System>, records: seq<I.Track>, calls: seq<MuxCall>, t: nat, n: nat)
    requires IsRun(states, records, calls, t) && n <= |calls| && t < |states[0].k.tcb|
    ensures var y, k := states[n], records[n];
      && t < |y.k.tcb| && t < |k.held| && |y.k.tcb| == |k.s.prio| && k.s.prio[t] == y.k.tcb[t].prio
      && |y.cells| == |k.s.mux| && (forall m | 0 <= m < |y.cells| :: k.s.mux[m].saved == y.cells[m].saved)
      && (OwnsNothing(y, t) <==> k.held[t] == [])
      && (forall m: nat :: m in k.held[t] <==> Owns(y, t, m))
      && (forall m: nat :: OwnsJust(y, t, m) <==> k.held[t] == [m])
  {
    RunFits(states, records, calls, t, n);
    var y, k := states[n], records[n];
    SizesFit(y, k);
    HeldIs(y, k, t);
    forall m: nat ensures m in k.held[t] <==> Owns(y, t, m) {
      OwnsHeld(y, k, t, m);
    }
    hide IsRun, Sound, I.TrackOk, OwnsNothing, OwnsJust, Owns;
    assert k.s == Seen(y);
  }

  lemma LentInStep(states: seq<System>, records: seq<I.Track>, calls: seq<MuxCall>, t: nat, m: nat, i: nat)
    requires IsRun(states, records, calls, t) && i < |calls| && t < |states[0].k.tcb|
    requires Owns(states[i], t, m) && Owns(states[i + 1], t, m)
    ensures m < |records[i].lent| && m < |records[i + 1].lent|
    ensures records[i + 1].lent[m] == records[i].lent[m] + LentBy(states[i], calls[i], m)
  {
    SameView(states, records, calls, t, i);
    SameView(states, records, calls, t, i + 1);
    RunFits(states, records, calls, t, i);
    RunFits(states, records, calls, t, i + 1);
    assert StepTo(states[i], records[i], calls[i], states[i + 1], records[i + 1], t);
    hide Fits, After, Follow, Possible, NoneHeld, N.MovesOn, Owns, OwnsJust, BlocksOn, EmptyRecord;
    FollowMoves(states[i], records[i], calls[i], t);
    FollowLends(states[i], records[i], calls[i], t, m);
  }

  ghost predicate OwnedThroughout(states: seq<System>, t: nat, m: nat, i: nat, j: nat) {
    forall x | i <= x <= j < |states| :: Owns(states[x], t, m)
  }

  /** The record of what is lent through `m` is what the calls say. */
  lemma {:induction false} LentIs(states: seq<System>, records: seq<I.Track>, calls: seq<MuxCall>, t: nat, m: nat, i: nat, j: nat)
    requires IsRun(states, records, calls, t) && i <= j <= |calls| && t < |states[0].k.tcb|
    requires OwnedThroughout(states, t, m, i, j)
    ensures m < |records[i].lent| && m < |records[j].lent|
    ensures records[j].lent[m] == records[i].lent[m] + LentDuring(states, calls, m, i, j)
    decreases j
  {
    hide Sound, NoneHeld, StepTo, BlocksOn, Owns, EmptyRecord;
    assert Owns(states[j], t, m);
    if i == j {
      LentExists(states, records, calls, t, m, i);
    } else {
      LentIs(states, records, calls, t, m, i, j - 1);
      assert Owns(states[j - 1], t, m) && Owns(states[j - 1 + 1], t, m);
      LentInStep(states, records, calls, t, m, j - 1);
    }
  }

  lemma NewIs(states: seq<System>, records: seq<I.Track>, calls: seq<MuxCall>, t: nat, m: nat, i: nat, j: nat)
    requires IsRun(states, records, calls, t) && i <= j <= |calls| && t < |states[0].k.tcb|
    requires OwnedThroughout(states, t, m, i, j)
    ensures m < |records[i].lent| && m < |records[j].lent| && |records[i].lent[m]| <= |records[j].lent[m]|
    ensures N.New(records[i], records[j], m) == LentDuring(states, calls, m, i, j)
  {
    hide IsRun;
    Lengths(states, records, calls, t);
    LentIs(states, records, calls, t, m, i, j);
    hide OwnedThroughout, LentDuring;
  }

  lemma LentExists(states: seq<System>, records: seq<I.Track>, calls: seq<MuxCall>, t: nat, m: nat, i: nat)
    requires IsRun(states, records, calls, t) && i <= |calls| && t < |states[0].k.tcb| && Owns(states[i], t, m)
    ensures m < |records[i].lent|
  {
    SameView(states, records, calls, t, i);
    RunFits(states, records, calls, t, i);
    hide IsRun, Sound, OwnsJust, OwnsNothing;
  }

  ghost predicate OwnedAlone(states: seq<System>, t: nat, m: nat, i: nat, j: nat) {
    forall x | i <= x <= j < |states| :: OwnsJust(states[x], t, m)
  }

  lemma Throughout(states: seq<System>, records: seq<I.Track>, calls: seq<MuxCall>, t: nat, m: nat, i: nat, j: nat)
    requires IsRun(states, records, calls, t) && j <= |calls| && t < |states[0].k.tcb|
    ensures OwnedThroughout(states, t, m, i, j) ==> N.HeldThroughout(records, t, m, i, j)
    ensures OwnedAlone(states, t, m, i, j) ==> N.AloneThroughout(records, t, m, i, j)
  {
    hide IsRun;
    Lengths(states, records, calls, t);
    hide Sound, NoneHeld, StepTo, OwnsJust, OwnsNothing, Owns, EmptyRecord;
    forall x | i <= x <= j
      ensures t < |records[x].held| && (m in records[x].held[t] <==> Owns(states[x], t, m))
      ensures OwnsJust(states[x], t, m) <==> records[x].held[t] == [m]
    {
      SameView(states, records, calls, t, x);
    }
  }

  /** In a tenure of `m` that began in state `a`, all that is lent through `m` was lent
      since then. */
  lemma LentInTenure(states: seq<System>, records: seq<I.Track>, calls: seq<MuxCall>, t: nat, m: nat, a: nat, n: nat)
    requires IsRun(states, records, calls, t) && n <= |calls| && t < |states[0].k.tcb| && Tenure(states, t, m, a, n)
    ensures m < |records[n].lent| && records[n].lent[m] == LentDuring(states, calls, m, a, n)
  {
    hide IsRun;
    Lengths(states, records, calls, t);
    assert Owns(states[n], t, m) && Owns(states[a], t, m) && OwnedThroughout(states, t, m, a, n);
    hide Sound, NoneHeld, StepTo, OwnsJust, OwnsNothing, Owns, EmptyRecord, N.History, LentDuring, Tenure;
    RunIsHistory(states, records, calls, t);
    SameView(states, records, calls, t, a - 1);
    SameView(states, records, calls, t, a);
    LentIs(states, records, calls, t, m, a, n);
    StartsEmpty(records, t, m, a);
  }

  /** The record and the calls promise the same. */
  lemma SamePromise(states: seq<System>, records: seq<I.Track>, calls: seq<MuxCall>, t: nat, m: nat, a: nat, n: nat)
    requires IsRun(states, records, calls, t) && n <= |calls| && t < |states[0].k.tcb| && Tenure(states, t, m, a, n)
    ensures m < |states[n].cells| && m < |records[n].s.mux| && m < |records[n].lent| && t < |states[n].k.tcb|
    ensures N.Promised(records[n], m) == Promised(states, calls, m, a, n)
    ensures N.Exact(records[n], t, m) <==> states[n].k.tcb[t].prio == Promised(states, calls, m, a, n)
  {
    hide IsRun;
    Lengths(states, records, calls, t);
    LentInTenure(states, records, calls, t, m, a, n);
    SameView(states, records, calls, t, n);
    assert Owns(states[n], t, m);
    hide OwnsJust, OwnsNothing, LentDuring, I.Best, Tenure;
  }

  lemma StartsEmpty(ks: seq<I.Track>, t: nat, m: nat, a: nat)
    requires N.History(ks, t) && 0 < a < |ks|
    requires t < |ks[a - 1].held| && m !in ks[a - 1].held[t] && t < |ks[a].held| && m in ks[a].held[t]
    ensures m < |ks[a].lent| ==> ks[a].lent[m] == []
  {
    hide M.Ok, I.TaskOk, I.HolderOk;
    assert N.Moves(ks[a - 1], ks[a - 1 + 1], t) && N.MovesOn(ks[a - 1], ks[a], t, m);
  }

  // ---------------------------------------------------------------- the laws

  lemma Part(states: seq<System>, t: nat, m: nat, a: nat, n: nat, i: nat)
    requires Tenure(states, t, m, a, n) && a <= i <= n
    ensures Tenure(states, t, m, a, i) && OwnedThroughout(states, t, m, i, n) && Owns(states[i], t, m)
  {
    hide Owns;
  }

  /** A tenure without nesting: a task that owned no mutex acquires `m` and owns no
      other; its priority is the promised one all along. */
  lemma LoneTenure(states: seq<System>, records: seq<I.Track>, calls: seq<MuxCall>, t: nat, m: nat, a: nat, n: nat)
    requires IsRun(states, records, calls, t) && n <= |calls| && t < |states[0].k.tcb|
    requires Tenure(states, t, m, a, n) && OwnsNothing(states[a - 1], t) && OwnedAlone(states, t, m, a, n)
    ensures t < |states[n].k.tcb| && m < |states[n].cells|
    ensures states[n].k.tcb[t].prio == Promised(states, calls, m, a, n)
  {
    hide IsRun;
    Lengths(states, records, calls, t);
    RunIsHistory(states, records, calls, t);
    SameView(states, records, calls, t, a - 1);
    Throughout(states, records, calls, t, m, a, n);
    SamePromise(states, records, calls, t, m, a, n);
    hide Owns, OwnsNothing, OwnedAlone, Promised, N.Exact, N.History, N.AloneThroughout;
    N.LoneTenure(records, t, m, a - 1, n);
  }

  /** After nesting: `t` lets go of `b` in state `i` and owns `m` alone from then on.
      Its priority is the promised one exactly when the priority saved in `b` was what
      `m` promised at the release, or a task at least as good as both has blocked on
      `m` since. */
  lemma AfterNesting(states: seq<System>, records: seq<I.Track>, calls: seq<MuxCall>, t: nat, m: nat, b: nat, a: nat, i: nat, n: nat)
    requires IsRun(states, records, calls, t) && n <= |calls| && t < |states[0].k.tcb|
    requires Tenure(states, t, m, a, n) && a <= i < n && b != m && Owns(states[i], t, b) && OwnedAlone(states, t, m, i + 1, n)
    ensures t < |states[n].k.tcb| && m < |states[i].cells| && m < |states[n].cells|
    ensures var saved, promised := states[i].cells[b].saved, Promised(states, calls, m, a, i);
      states[n].k.tcb[t].prio == Promised(states, calls, m, a, n) <==>
        saved == promised || exists p <- LentDuring(states, calls, m, i, n) :: p <= saved && p <= promised
  {
    hide IsRun;
    Lengths(states, records, calls, t);
    Part(states, t, m, a, n, i);
    RunIsHistory(states, records, calls, t);
    SameView(states, records, calls, t, i);
    Throughout(states, records, calls, t, m, i + 1, n);
    SamePromise(states, records, calls, t, m, a, i);
    SamePromise(states, records, calls, t, m, a, n);
    NewIs(states, records, calls, t, m, i, n);
    hide OwnsNothing, OwnsJust, OwnedAlone, Promised, N.Promised, N.Exact, N.History, N.AloneThroughout, LentDuring, OwnedThroughout, Tenure;
    N.AfterNesting(records, t, m, b, i, n);
  }

  /** What the record shows of a nested lock. */
  lemma NestedInRecord(states: seq<System>, records: seq<I.Track>, calls: seq<MuxCall>, t: nat, m: nat, b: nat, i: nat, j: nat)
    requires IsRun(states, records, calls, t) && i < j < |calls| && t < |states[0].k.tcb|
    requires OwnsJust(states[i], t, m) && OwnsJust(states[j + 1], t, m)
    requires OwnedThroughout(states, t, m, i, j) && OwnedThroughout(states, t, b, i + 1, j)
    ensures N.History(records, t) && t < |records[i].held| && t < |records[j + 1].held|
    ensures records[i].held[t] == [m] == records[j + 1].held[t]
    ensures N.HeldThroughout(records, t, m, i, j) && N.HeldThroughout(records, t, b, i + 1, j)
    ensures t < |states[i].k.tcb| && t < |states[j + 1].k.tcb| && t < |records[i].s.prio| && t < |records[j + 1].s.prio|
    ensures records[i].s.prio[t] == states[i].k.tcb[t].prio && records[j + 1].s.prio[t] == states[j + 1].k.tcb[t].prio
  {
    hide IsRun;
    Lengths(states, records, calls, t);
    RunIsHistory(states, records, calls, t);
    SameView(states, records, calls, t, i);
    SameView(states, records, calls, t, j + 1);
    Throughout(states, records, calls, t, m, i, j);
    Throughout(states, records, calls, t, b, i + 1, j);
    hide OwnsNothing, OwnsJust, N.History, N.HeldThroughout, OwnedThroughout;
  }

  /** Properly nested locks: owning just `m` at the promised priority, `t` takes `b`, does
      what it likes and lets go of `b`, owning `m` all along.  It comes back to the
      priority it had, and that is still the promised one exactly when no better task
      has blocked on `m` in the meantime. */
  lemma NestedLock(states: seq<System>, records: seq<I.Track>, calls: seq<MuxCall>, t: nat, m: nat, b: nat, a: nat, i: nat, j: nat)
    requires IsRun(states, records, calls, t) && j < |calls| && t < |states[0].k.tcb|
    requires Tenure(states, t, m, a, j + 1) && a <= i < j && b != m && t < |states[i].k.tcb|
    requires OwnsJust(states[i], t, m) && states[i].k.tcb[t].prio == Promised(states, calls, m, a, i)
    requires OwnedThroughout(states, t, b, i + 1, j) && OwnsJust(states[j + 1], t, m)
    ensures t < |states[j + 1].k.tcb| && m < |states[j + 1].cells|
    ensures states[j + 1].k.tcb[t].prio == states[i].k.tcb[t].prio
    ensures states[j + 1].k.tcb[t].prio == Promised(states, calls, m, a, j + 1)
       <==> forall p <- LentDuring(states, calls, m, i, j) :: states[i].k.tcb[t].prio <= p
  {
    hide IsRun, Owns, OwnsNothing, OwnsJust, Promised, N.Promised, N.History, N.HeldThroughout, LentDuring, OwnedThroughout, Tenure;
    Lengths(states, records, calls, t);
    Part(states, t, m, a, j + 1, i);
    Part(states, t, m, a, j + 1, j);
    Part(states, t, m, a, j, i);
    NestedInRecord(states, records, calls, t, m, b, i, j);
    SamePromise(states, records, calls, t, m, a, i);
    SamePromise(states, records, calls, t, m, a, j + 1);
    NewIs(states, records, calls, t, m, i, j);
    hide N.Exact, N.New;
    N.NestedLock(records, t, m, b, i, j);
  }
}
