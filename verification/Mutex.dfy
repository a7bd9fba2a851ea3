/** The recursive mutexes of los_mux.c with their priority inheritance: a task that
    blocks lends its priority to the owner, the last release restores the priority
    the owner had when it acquired that mutex, and hands over to the longest waiter.
    Smaller numbers are better priorities. */
module Mutex {

  datatype Mux = Mux(used: bool, count: nat, owner: nat, saved: nat, waiters: seq<nat>)

  datatype State = State(prio: seq<nat>, mux: seq<Mux>)

  datatype Ret = Acquired | Again | Released | HandedOver | Invalid | Unavailable | PendInterr | PendInLock | Blocked | Pended

  // ---------------------------------------------------------------- LOS_MuxPend, LOS_MuxPost

  function PendRet(s: State, t: nat, m: nat, wait: bool, interrupt: bool, locked: bool): Ret {
    if m >= |s.mux| || !s.mux[m].used then Invalid
    else if interrupt then PendInterr
    else if s.mux[m].count == 0 then Acquired
    else if s.mux[m].owner == t then Again
    else if !wait then Unavailable
    else if locked then PendInLock
    else Blocked
  }

  function Boosted(s: State, owner: nat, p: nat): seq<nat>
    requires owner < |s.prio|
  {
    if s.prio[owner] > p then s.prio[owner := p] else s.prio
  }

  function Pend(s: State, t: nat, m: nat, wait: bool, interrupt: bool, locked: bool): State
    requires t < |s.prio| && forall x <- s.mux :: x.owner < |s.prio|
  {
    match PendRet(s, t, m, wait, interrupt, locked)
    case Acquired => s.(mux := s.mux[m := s.mux[m].(count := 1, owner := t, saved := s.prio[t])])
    case Again => s.(mux := s.mux[m := s.mux[m].(count := s.mux[m].count + 1)])
    case Blocked =>
      State(Boosted(s, s.mux[m].owner, s.prio[t]), s.mux[m := s.mux[m].(waiters := s.mux[m].waiters + [t])])
    case _ => s
  }

  function PostRet(s: State, t: nat, m: nat): Ret {
    if m >= |s.mux| || !s.mux[m].used then Invalid
    else if s.mux[m].count == 0 || s.mux[m].owner != t then Invalid
    else if s.mux[m].count > 1 then Again
    else if s.mux[m].waiters != [] then HandedOver
    else Released
  }

  function Post(s: State, t: nat, m: nat): State
    requires t < |s.prio| && forall x <- s.mux :: forall w <- x.waiters :: w < |s.prio|
  {
    var r := PostRet(s, t, m);
    if r == Invalid then s
    else if r == Again then s.(mux := s.mux[m := s.mux[m].(count := s.mux[m].count - 1)])
    else
      var prio := s.prio[t := s.mux[m].saved];
      if r == Released then State(prio, s.mux[m := s.mux[m].(count := 0)])
      else
        assert s.mux[m] in s.mux && s.mux[m].waiters[0] in s.mux[m].waiters;
        var next := s.mux[m].waiters[0];
        State(prio, s.mux[m := s.mux[m].(count := 1, owner := next, saved := prio[next], waiters := s.mux[m].waiters[1..])])
  }

  /** The tick ends the wait of the `i`-th waiter.  A boost it caused stays. */
  function Expire(s: State, m: nat, i: nat): State
    requires m < |s.mux| && i < |s.mux[m].waiters|
  {
    s.(mux := s.mux[m := s.mux[m].(waiters := s.mux[m].waiters[..i] + s.mux[m].waiters[i + 1..])])
  }

  function DeleteRet(s: State, m: nat): Ret {
    if m >= |s.mux| || !s.mux[m].used then Invalid
    else if s.mux[m].waiters != [] || s.mux[m].count != 0 then Pended
    else Released
  }

  function Delete(s: State, m: nat): State {
    if DeleteRet(s, m) == Released then s.(mux := s.mux[m := s.mux[m].(used := false)]) else s
  }

  function Create(s: State, m: nat): State
    requires m < |s.mux| && !s.mux[m].used
  {
    s.(mux := s.mux[m := s.mux[m].(used := true, count := 0, saved := 0, waiters := [])])
  }

  // ---------------------------------------------------------------- mutual exclusion

  ghost predicate Distinct(l: seq<nat>) {
    forall i, j | 0 <= i < j < |l| :: l[i] != l[j]
  }

  /** One mutex: only a held mutex has waiters, its owner is not among them, and
      nobody waits twice. */
  ghost predicate MuxOk(x: Mux, tasks: nat) {
    && x.owner < tasks
    && (x.count > 0 ==> x.used)
    && (x.waiters != [] ==> x.count > 0 && x.owner !in x.waiters)
    && Distinct(x.waiters) && forall w <- x.waiters :: w < tasks
  }

  /** No task waits for two mutexes. */
  ghost predicate WaitsOnce(s: State) {
    forall m, n | 0 <= m < |s.mux| && 0 <= n < |s.mux| && m != n ::
      forall w <- s.mux[m].waiters :: w !in s.mux[n].waiters
  }

  ghost predicate Ok(s: State) {
    && (forall m | 0 <= m < |s.mux| :: MuxOk(s.mux[m], |s.prio|))
    && WaitsOnce(s)
  }

  /** A task that makes a call is not waiting. */
  ghost predicate Runs(s: State, t: nat) {
    t < |s.prio| && forall x <- s.mux :: t !in x.waiters
  }

  lemma OneMux(s: State, s': State, m: nat)
    requires Ok(s) && m < |s.mux| == |s'.mux| && |s'.prio| == |s.prio| && s'.mux == s.mux[m := s'.mux[m]]
    requires MuxOk(s'.mux[m], |s.prio|)
    requires forall w <- s'.mux[m].waiters :: w in s.mux[m].waiters || forall x <- s.mux :: w !in x.waiters
    ensures Ok(s')
  {
    forall a, b | 0 <= a < |s'.mux| && 0 <= b < |s'.mux| && a != b
      ensures forall w <- s'.mux[a].waiters :: w !in s'.mux[b].waiters
    {
      assert s.mux[a] in s.mux && s.mux[b] in s.mux;
    }
  }

  lemma OwnersInRange(s: State)
    requires Ok(s)
    ensures forall x <- s.mux :: x.owner < |s.prio| && forall w <- x.waiters :: w < |s.prio|
  {
    forall x <- s.mux ensures x.owner < |s.prio| && forall w <- x.waiters :: w < |s.prio| {
      var m :| 0 <= m < |s.mux| && s.mux[m] == x;
      assert MuxOk(s.mux[m], |s.prio|);
    }
  }

  lemma PendOk(s: State, t: nat, m: nat, wait: bool, interrupt: bool, locked: bool)
    requires Ok(s) && Runs(s, t)
    ensures forall x <- s.mux :: x.owner < |s.prio|
    ensures Ok(Pend(s, t, m, wait, interrupt, locked))
  {
    OwnersInRange(s);
    var s' := Pend(s, t, m, wait, interrupt, locked);
    if s' != s {
      assert MuxOk(s.mux[m], |s.prio|) && s.mux[m] in s.mux;
      OneMux(s, s', m);
    }
  }

  lemma PostOk(s: State, t: nat, m: nat)
    requires Ok(s) && Runs(s, t)
    ensures forall x <- s.mux :: forall w <- x.waiters :: w < |s.prio|
    ensures Ok(Post(s, t, m))
  {
    OwnersInRange(s);
    var s' := Post(s, t, m);
    if PostRet(s, t, m) != Invalid {
      assert MuxOk(s.mux[m], |s.prio|) && s.mux[m] in s.mux;
      if s.mux[m].waiters != [] {
        assert s.mux[m].waiters[0] in s.mux[m].waiters && forall w <- s.mux[m].waiters[1..] :: w in s.mux[m].waiters;
      }
      OneMux(s, s', m);
    }
  }

  /** A pend, field by field.  A free mutex is taken and an owned one counted up whatever
      the timeout and the scheduler lock; only then does the caller's wish to wait
      matter, and a caller that waits lends its priority to the owner. */
  lemma PendAnswers(s: State, t: nat, m: nat, wait: bool, interrupt: bool, locked: bool)
    requires Ok(s) && Runs(s, t) && m < |s.mux| && s.mux[m].used
    ensures s.mux[m].owner < |s.prio| && forall x <- s.mux :: x.owner < |s.prio|
    ensures var r, s', x := PendRet(s, t, m, wait, interrupt, locked), Pend(s, t, m, wait, interrupt, locked), s.mux[m];
      if interrupt then r == PendInterr && s' == s
      else if x.count == 0 then r == Acquired && s' == State(s.prio, s.mux[m := Mux(true, 1, t, s.prio[t], [])])
      else if x.owner == t then r == Again && s' == State(s.prio, s.mux[m := Mux(true, x.count + 1, t, x.saved, x.waiters)])
      else if !wait then r == Unavailable && s' == s
      else if locked then r == PendInLock && s' == s
      else
        && r == Blocked && s'.mux == s.mux[m := Mux(true, x.count, x.owner, x.saved, x.waiters + [t])]
        && |s'.prio| == |s.prio|
        && forall u | 0 <= u < |s.prio| :: s'.prio[u] == if u == x.owner && s.prio[t] < s.prio[u] then s.prio[t] else s.prio[u]
  {
    OwnersInRange(s);
    assert MuxOk(s.mux[m], |s.prio|);
  }

  /** A post, field by field. */
  lemma PostAnswers(s: State, t: nat, m: nat)
    requires Ok(s) && Runs(s, t) && m < |s.mux| && s.mux[m].used
    ensures forall x <- s.mux :: forall w <- x.waiters :: w < |s.prio|
    ensures var r, s', x := PostRet(s, t, m), Post(s, t, m), s.mux[m];
      if x.count == 0 || x.owner != t then r == Invalid && s' == s
      else if x.count > 1 then r == Again && s' == State(s.prio, s.mux[m := Mux(true, x.count - 1, t, x.saved, x.waiters)])
      else if x.waiters == [] then r == Released && s' == State(s.prio[t := x.saved], s.mux[m := Mux(true, 0, t, x.saved, [])])
      else
        && x.waiters[0] < |s.prio| && r == HandedOver
        && s' == State(s.prio[t := x.saved], s.mux[m := Mux(true, 1, x.waiters[0], s.prio[x.waiters[0]], x.waiters[1..])])
  {
    OwnersInRange(s);
    assert MuxOk(s.mux[m], |s.prio|) && s.mux[m] in s.mux;
    if s.mux[m].waiters != [] {
      assert s.mux[m].waiters[0] in s.mux[m].waiters;
    }
  }

  /** A mutex out of range or not created answers nothing but an error, and it is deleted
      exactly while nobody holds it; nobody waits then either. */
  lemma HandleAnswers(s: State, t: nat, m: nat, wait: bool, interrupt: bool, locked: bool)
    requires Ok(s) && Runs(s, t)
    ensures (forall x <- s.mux :: x.owner < |s.prio|) && (forall x <- s.mux :: forall w <- x.waiters :: w < |s.prio|)
    ensures m >= |s.mux| || !s.mux[m].used ==>
              && PendRet(s, t, m, wait, interrupt, locked) == PostRet(s, t, m) == DeleteRet(s, m) == Invalid
              && Pend(s, t, m, wait, interrupt, locked) == Post(s, t, m) == Delete(s, m) == s
    ensures m < |s.mux| && s.mux[m].used ==>
              if s.mux[m].count > 0 then DeleteRet(s, m) == Pended && Delete(s, m) == s
              else DeleteRet(s, m) == Released && Delete(s, m) == s.(mux := s.mux[m := s.mux[m].(used := false)])
    ensures m < |s.mux| && !s.mux[m].used ==> Create(s, m) == s.(mux := s.mux[m := Mux(true, 0, s.mux[m].owner, 0, [])])
  {
    OwnersInRange(s);
    if m < |s.mux| {
      assert MuxOk(s.mux[m], |s.prio|);
    }
  }

  lemma ExpireOk(s: State, m: nat, i: nat)
    requires Ok(s) && m < |s.mux| && i < |s.mux[m].waiters|
    ensures Ok(Expire(s, m, i))
  {
    assert MuxOk(s.mux[m], |s.prio|);
    assert forall w <- Expire(s, m, i).mux[m].waiters :: w in s.mux[m].waiters;
    OneMux(s, Expire(s, m, i), m);
  }

  lemma DeleteOk(s: State, m: nat)
    requires Ok(s)
    ensures Ok(Delete(s, m))
  {
    if DeleteRet(s, m) == Released {
      assert MuxOk(s.mux[m], |s.prio|);
      OneMux(s, Delete(s, m), m);
    }
  }

  lemma CreateOk(s: State, m: nat)
    requires Ok(s) && m < |s.mux| && !s.mux[m].used
    ensures Ok(Create(s, m))
  {
    assert MuxOk(s.mux[m], |s.prio|);
    OneMux(s, Create(s, m), m);
  }

  /** Release and hand-over: a post by anyone but the owner changes nothing; the final
      post makes the longest waiter the owner, once, at its own priority. */
  lemma PostMeans(s: State, t: nat, m: nat)
    requires Ok(s) && Runs(s, t) && m < |s.mux|
    ensures forall x <- s.mux :: forall w <- x.waiters :: w < |s.prio|
    ensures s.mux[m].count == 0 || s.mux[m].owner != t ==> Post(s, t, m) == s
    ensures s.mux[m].count == 1 && s.mux[m].owner == t && s.mux[m].waiters != [] ==>
              var x, y := s.mux[m], Post(s, t, m).mux[m];
              && y.count == 1 && y.owner == x.waiters[0] && y.owner != t && [y.owner] + y.waiters == x.waiters
              && y.owner < |s.prio| && y.saved == s.prio[y.owner] == Post(s, t, m).prio[y.owner]
  {
    OwnersInRange(s);
    assert MuxOk(s.mux[m], |s.prio|) && s.mux[m] in s.mux;
    if s.mux[m].waiters != [] {
      assert s.mux[m].waiters[0] in s.mux[m].waiters;
    }
  }
}
