/** Priority inheritance in the running system: what `Inheritance` shows of mutex calls
    holds of the priorities in the task control blocks, over any run in which mutex
    calls interleave with all other calls and ticks. */
module MuxRuns {
  import opened Tasks
  import opened Kernel
  import opened MuxOnTasks
  import WaitLists
  import M = Mutex
  import I = Inheritance

  /** Nobody holds a mutex. */
  ghost predicate NoneHeld(y: System) {
    forall m | 0 <= m < |y.cells| :: y.cells[m].count == 0
  }

  /** The record at the start, when nobody holds a mutex. */
  ghost function EmptyRecord(y: System): I.Track
    requires ListsExist(y)
  {
    var n := |y.k.tcb|;
    I.Track(Seen(y), seq(n, _ => []), seq(n, _ => 0), seq(n, _ => false), seq(n, _ => 0),
            seq(n, _ => 0), seq(n, _ => []), seq(|y.cells|, _ => []))
  }

  lemma EmptyRecordOk(y: System)
    requires Sound(y) && NoneHeld(y)
    ensures I.TrackOk(EmptyRecord(y))
  {
    var k := EmptyRecord(y);
    hide M.Ok, Inv;
    forall t | 0 <= t < |k.held| ensures I.TaskOk(k, t) {
      assert forall m: nat | m < |y.cells| :: k.s.mux[m] == View(y.k, y.cells[m]);
      assert M.Distinct(k.held[t]);
    }
  }

  /** The step leaves alone the priorities of task `t` and of all tasks that hold a
      mutex; LOS_TaskPriSet on others and new tasks are welcome. */
  ghost predicate Benign(k: I.Track, s': M.State, t: nat) {
    && |s'.prio| == |k.s.prio| == |k.held|
    && forall u | 0 <= u < |k.held| && (u == t || k.held[u] != []) :: s'.prio[u] == k.s.prio[u]
  }

  /** Losing waiters does not disturb the record. */
  lemma RecordLoses(k: I.Track, s': M.State, t: nat)
    requires I.TrackOk(k) && M.Ok(s') && LosesWaiters(k.s, s') && Benign(k, s', t)
    ensures I.TrackOk(k.(s := s'))
  {
    hide M.Ok, WaitLists.Thinner;
    var k' := k.(s := s');
    forall u | 0 <= u < |k.held| ensures I.TaskOk(k', u) {
      assert I.TaskOk(k, u);
      assert forall n: nat :: I.Holds(k', u, n) <==> I.Holds(k, u, n);
    }
    forall u | 0 <= u < |k.held| ensures I.HolderOk(k', u) {
      assert I.HolderOk(k, u);
    }
  }

  // ---------------------------------------------------------------- following the system

  /** The record fits the system. */
  ghost predicate Fits(y: System, k: I.Track) {
    Sound(y) && I.TrackOk(k) && k.s == Seen(y)
  }

  ghost predicate Possible(y: System, k: I.Track, c: MuxCall, t: nat)
    requires Fits(y, k)
  {
    May(y, c) && (c.Rest? ==> ListsExist(After(y, c)) && Benign(k, Seen(After(y, c)), t))
  }

  function EventOf(y: System, c: MuxCall): I.Event
    requires !c.Rest?
  {
    match c
    case MuxPend(m, timeout, interrupt) => I.EvPend(y.k.run, m, timeout != 0, interrupt, y.k.lock != 0)
    case MuxPost(m) => I.EvPost(y.k.run, m)
  }

  lemma EventEnabled(y: System, k: I.Track, c: MuxCall)
    requires Fits(y, k) && !c.Rest?
    ensures I.Enabled(k, EventOf(y, c))
  {
    hide M.Ok, Inv;
    RunnerRuns(y);
  }

  ghost function Follow(y: System, k: I.Track, c: MuxCall, t: nat): I.Track
    requires Fits(y, k) && Possible(y, k, c, t)
  {
    if c.Rest? then k.(s := Seen(After(y, c)))
    else
      EventEnabled(y, k, c);
      I.Next(k, EventOf(y, c))
  }

  lemma FollowFits(y: System, k: I.Track, c: MuxCall, t: nat)
    requires Fits(y, k) && Possible(y, k, c, t)
    ensures Fits(After(y, c), Follow(y, k, c, t))
  {
    StepRefinesMutex(y, c);
    hide Sound, After, I.TrackOk, M.Ok, Benign, M.Pend, M.Post, LosesWaiters;
    if c.Rest? {
      SeenOk(After(y, c));
      RecordLoses(k, Seen(After(y, c)), t);
    } else {
      EventEnabled(y, k, c);
      I.StepOk(k, EventOf(y, c));
    }
  }

  lemma SeenOk(y: System)
    requires Sound(y)
    ensures ListsExist(y) && M.Ok(Seen(y))
  {
  }

  ghost predicate StepTo(y: System, k: I.Track, c: MuxCall, y': System, k': I.Track, t: nat) {
    Fits(y, k) && Possible(y, k, c, t) && y' == After(y, c) && k' == Follow(y, k, c, t)
  }

  /** A run of the system from a state in which nobody holds a mutex, with the record
      of who holds what kept beside it. */
  ghost predicate IsRun(states: seq<System>, records: seq<I.Track>, calls: seq<MuxCall>, t: nat) {
    && |states| == |records| == |calls| + 1
    && Sound(states[0]) && NoneHeld(states[0]) && records[0] == EmptyRecord(states[0])
    && forall i | 0 <= i < |calls| :: StepTo(states[i], records[i], calls[i], states[i + 1], records[i + 1], t)
  }

  /** Task `t` lets go of its last mutex only if that is the one it acquired first. */
  ghost predicate ReleasesInOrder(y: System, k: I.Track, c: MuxCall, t: nat) {
    !c.Rest? ==> I.FirstIsLast(k, EventOf(y, c), t)
  }

  /** What is remembered of `t`. */
  ghost predicate Remembers(y: System, k: I.Track, t: nat, p: nat) {
    && Fits(y, k) && t < |k.held| == |y.k.tcb| == |k.base|
    && (if k.held[t] == [] then y.k.tcb[t].prio == p else k.base[t] == p)
  }

  lemma StartRemembers(y: System, t: nat)
    requires Sound(y) && NoneHeld(y) && t < |y.k.tcb|
    ensures Remembers(y, EmptyRecord(y), t, y.k.tcb[t].prio)
  {
    EmptyRecordOk(y);
  }

  lemma StepRemembers(y: System, k: I.Track, c: MuxCall, t: nat, p: nat)
    requires Remembers(y, k, t, p) && Possible(y, k, c, t) && ReleasesInOrder(y, k, c, t)
    ensures Remembers(After(y, c), Follow(y, k, c, t), t, p)
  {
    FollowFits(y, k, c, t);
    hide Sound, After, M.Ok, I.Next, I.Enabled;
    var y', k' := After(y, c), Follow(y, k, c, t);
    SizesFit(y', k');
    if c.Rest? {
      assert Seen(y').prio[t] == y'.k.tcb[t].prio && Seen(y).prio[t] == y.k.tcb[t].prio;
    } else {
      EventEnabled(y, k, c);
      if k.held[t] == [] {
        I.OnlyHoldersChange(k, EventOf(y, c), t);
      } else {
        I.HolderStep(k, EventOf(y, c), t);
      }
      assert Seen(y').prio[t] == y'.k.tcb[t].prio && Seen(y).prio[t] == y.k.tcb[t].prio;
    }
  }

  lemma SizesFit(y: System, k: I.Track)
    requires Fits(y, k)
    ensures ListsExist(y) && |k.held| == |y.k.tcb| == |k.base| == |k.s.prio|
  {
    hide M.Ok, Inv;
  }

  /** Over any run of the system, with whatever boosts, nested locks, timeouts,
      hand-overs and other calls: a task whose first-acquired mutex is always its last
      released, and whose priority no other call sets, has its original priority
      whenever it holds no mutex. */
  lemma {:induction false} PriorityRestored(states: seq<System>, records: seq<I.Track>, calls: seq<MuxCall>, t: nat, n: nat)
    requires IsRun(states, records, calls, t) && n <= |calls| && t < |states[0].k.tcb|
    requires forall i | 0 <= i < |calls| :: ReleasesInOrder(states[i], records[i], calls[i], t)
    ensures Fits(states[n], records[n]) && t < |states[n].k.tcb|
    ensures (forall c <- states[n].cells :: !(c.count > 0 && c.owner == t)) ==> states[n].k.tcb[t].prio == states[0].k.tcb[t].prio
  {
    RunRemembers(states, records, calls, t, n);
    HoldsNothing(states[n], records[n], t);
  }

  lemma {:induction false} RunRemembers(states: seq<System>, records: seq<I.Track>, calls: seq<MuxCall>, t: nat, n: nat)
    requires IsRun(states, records, calls, t) && n <= |calls| && t < |states[0].k.tcb|
    requires forall i | 0 <= i < |calls| :: ReleasesInOrder(states[i], records[i], calls[i], t)
    ensures Remembers(states[n], records[n], t, states[0].k.tcb[t].prio)
  {
    hide Sound, After, Follow, Remembers, Possible, ReleasesInOrder, NoneHeld, EmptyRecord;
    if n == 0 {
      StartRemembers(states[0], t);
    } else {
      RunRemembers(states, records, calls, t, n - 1);
      assert StepTo(states[n - 1], records[n - 1], calls[n - 1], states[n - 1 + 1], records[n - 1 + 1], t);
      assert ReleasesInOrder(states[n - 1], records[n - 1], calls[n - 1], t);
      StepRemembers(states[n - 1], records[n - 1], calls[n - 1], t, states[0].k.tcb[t].prio);
    }
  }

  lemma HoldsNothing(y: System, k: I.Track, t: nat)
    requires Fits(y, k) && t < |k.held| && t < |y.k.tcb|
    ensures (forall c <- y.cells :: !(c.count > 0 && c.owner == t)) ==> k.held[t] == []
  {
    hide M.Ok, Inv;
    assert I.TaskOk(k, t);
    if k.held[t] != [] {
      var m := k.held[t][0];
      assert m in k.held[t] && I.Holds(k, t, m);
      assert k.s.mux[m] == View(y.k, y.cells[m]) && y.cells[m] in y.cells;
    }
  }
}
