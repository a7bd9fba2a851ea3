/** The lock count of a mutex over a run: during one tenure it is exactly the owner's
    successful pends less its posts, and only the owner's last post ends the tenure. */
module LockCount {
  import opened Mutex
  import opened Inheritance

  predicate Locks(k: Track, e: Event, t: nat, m: nat) {
    e.EvPend? && e.task == t && e.m == m && PendRet(k.s, t, m, e.wait, e.interrupt, e.locked) in {Acquired, Again}
  }

  predicate Unlocks(k: Track, e: Event, t: nat, m: nat) {
    e.EvPost? && e.task == t && e.m == m && PostRet(k.s, t, m) != Invalid
  }

  /** Successful pends of `m` by `t` between the two states, and posts. */
  function Pends(states: seq<Track>, events: seq<Event>, t: nat, m: nat, from: nat, upto: nat): nat
    requires from <= upto <= |events| < |states|
    decreases upto
  {
    if from == upto then 0
    else Pends(states, events, t, m, from, upto - 1) + if Locks(states[upto - 1], events[upto - 1], t, m) then 1 else 0
  }

  function Posts(states: seq<Track>, events: seq<Event>, t: nat, m: nat, from: nat, upto: nat): nat
    requires from <= upto <= |events| < |states|
    decreases upto
  {
    if from == upto then 0
    else Posts(states, events, t, m, from, upto - 1) + if Unlocks(states[upto - 1], events[upto - 1], t, m) then 1 else 0
  }

  /** Where a tenure begins: the count is 1, and the task took a free mutex or was the
      longest waiter when the owner released it. */
  lemma TenureBegins(k: Track, e: Event, t: nat, m: nat)
    requires TrackOk(k) && Enabled(k, e) && !Holds(k, t, m) && Holds(Next(k, e), t, m)
    ensures m < |k.s.mux| && Next(k, e).s.mux[m].count == 1
    ensures Locks(k, e, t, m) || (e.EvPost? && e.m == m && Unlocks(k, e, e.task, m) && k.s.mux[m].waiters != [] && k.s.mux[m].waiters[0] == t)
  {
    hide TrackOk;
    StepOk(k, e);
    MuxesOk(k);
  }

  /** Where it ends: by the owner's post with count 1, and by nothing else. */
  lemma TenureEnds(k: Track, e: Event, t: nat, m: nat)
    requires TrackOk(k) && Enabled(k, e) && Holds(k, t, m) && !Holds(Next(k, e), t, m)
    ensures Unlocks(k, e, t, m) && k.s.mux[m].count == 1
  {
    hide TrackOk;
    StepOk(k, e);
    MuxesOk(k);
  }

  lemma MuxesOk(k: Track)
    requires TrackOk(k)
    ensures Ok(k.s)
  {
  }

  /** While `t` holds `m`, each step moves the count by that step's pend or post. */
  lemma CountStep(k: Track, e: Event, t: nat, m: nat)
    requires TrackOk(k) && Enabled(k, e) && Holds(k, t, m) && Holds(Next(k, e), t, m)
    ensures Next(k, e).s.mux[m].count
         == k.s.mux[m].count + (if Locks(k, e, t, m) then 1 else 0) - (if Unlocks(k, e, t, m) then 1 else 0)
  {
    hide TrackOk;
    StepOk(k, e);
    MuxesOk(k);
    assert MuxOk(k.s.mux[m], |k.s.prio|);
    if e.EvPost? && PostRet(k.s, e.task, e.m) == HandedOver {
      PostMeans(k.s, e.task, e.m);
    }
  }

  lemma {:induction false} CountIsPendsLessPosts(states: seq<Track>, events: seq<Event>, t: nat, m: nat, from: nat, upto: nat)
    requires IsRun(states, events) && from <= upto <= |events|
    requires forall i | from <= i <= upto :: Holds(states[i], t, m)
    ensures Holds(states[from], t, m) && Holds(states[upto], t, m)
    ensures states[upto].s.mux[m].count + Posts(states, events, t, m, from, upto)
         == states[from].s.mux[m].count + Pends(states, events, t, m, from, upto)
    decreases upto
  {
    hide TrackOk, Next, Enabled, Locks, Unlocks;
    if from < upto {
      CountIsPendsLessPosts(states, events, t, m, from, upto - 1);
      assert StepTo(states[upto - 1], events[upto - 1], states[upto - 1 + 1]);
      CountStep(states[upto - 1], events[upto - 1], t, m);
    }
  }
}
