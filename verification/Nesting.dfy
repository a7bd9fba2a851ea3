/** What nested locks do to a lent priority.  The design promises a task that holds one
    mutex the best of the priority saved in it and those of the tasks that blocked on it.
    A release puts the task back to the priority saved in the mutex it releases, also
    while it still holds another that better tasks wait for.  This module proves
    exactly when the promise is kept. */
module Nesting {
  import opened Mutex
  import opened Inheritance

  /** The promised priority of an owner of `m`. */
  function Promised(k: Track, m: nat): nat
    requires m < |k.s.mux| && m < |k.lent|
  {
    Best(k.s.mux[m].saved, k.lent[m])
  }

  ghost predicate Exact(k: Track, t: nat, m: nat) {
    m < |k.s.mux| && m < |k.lent| && t < |k.s.prio| && k.s.prio[t] == Promised(k, m)
  }

  // ---------------------------------------------------------------- the best of a list

  lemma {:induction false} BestAppend(p: nat, a: seq<nat>, b: seq<nat>)
    ensures Best(p, a + b) == Best(Best(p, a), b)
  {
    if b == [] {
      assert a + b == a;
    } else {
      assert (a + b)[..|a + b| - 1] == a + b[..|b| - 1];
      BestAppend(p, a, b[..|b| - 1]);
    }
  }

  lemma {:induction false} BestBound(p: nat, l: seq<nat>, q: nat)
    ensures Best(p, l) <= q <==> p <= q || exists x <- l :: x <= q
  {
    if l != [] {
      var front, last := l[..|l| - 1], l[|l| - 1];
      BestBound(p, front, q);
      assert l == front + [last];
      assert (exists x <- l :: x <= q) <==> (exists x <- front :: x <= q) || last <= q by {
        if x :| x in l && x <= q {
          assert x in front || x == last;
        }
        if x :| x in front && x <= q {
          assert x in l;
        }
        assert last in l;
      }
    }
  }

  /** Two priorities end up the same exactly when they were, or something at least as
      good as both was lent. */
  lemma BestAgree(p: nat, q: nat, l: seq<nat>)
    ensures Best(p, l) == Best(q, l) <==> p == q || exists x <- l :: x <= p && x <= q
    ensures Best(p, l) == p <==> forall x <- l :: p <= x
  {
    BestBound(p, l, Best(p, l));
    BestBound(p, l, Best(q, l));
    BestBound(q, l, Best(q, l));
    BestBound(q, l, Best(p, l));
    BestBound(p, l, p);
    BestBound(p, l, if p == 0 then 0 else p - 1);
  }

  // ---------------------------------------------------------------- in any state

  /** In every state that mutex calls lead to: a task that holds one mutex has the
      promised priority exactly when the priority it was last put at is what it was
      promised then, or a task at least as good as both has blocked since. */
  lemma OneMutexHeld(k: Track, t: nat, m: nat)
    requires TrackOk(k) && t < |k.held| && k.held[t] == [m]
    ensures m < |k.s.mux| && |k.since[t]| <= |k.lent[m]|
    ensures var before := Best(k.s.mux[m].saved, k.lent[m][..|k.lent[m]| - |k.since[t]|]);
      Exact(k, t, m) <==> k.anchor[t] == before || exists p <- k.since[t] :: p <= k.anchor[t] && p <= before
  {
    assert TaskOk(k, t) && HolderOk(k, t) && m in k.held[t];
    var old', new' := k.lent[m][..|k.lent[m]| - |k.since[t]|], k.since[t];
    assert k.lent[m] == old' + new';
    BestAppend(k.s.mux[m].saved, old', new');
    BestAgree(k.anchor[t], Best(k.s.mux[m].saved, old'), new');
  }

  /** A release that leaves the task with one mutex keeps the promise exactly when the
      priority saved in the released one is what the other promises. */
  lemma ReleaseToOne(k: Track, t: nat, b: nat, m: nat)
    requires TrackOk(k) && Runs(k.s, t) && t < |k.held|
    requires PostRet(k.s, t, b) in {Released, HandedOver} && Without(k.held[t], b) == [m]
    ensures b < |k.s.mux| && m < |k.s.mux|
    ensures Exact(AfterPost(k, t, b), t, m) <==> k.s.mux[b].saved == Promised(k, m)
  {
    assert TaskOk(k, t) && Holds(k, t, b);
    WithoutMembers(k.held[t], b);
    assert m in k.held[t] && Holds(k, t, m);
    AfterPostOk(k, t, b);
    PostMeans(k.s, t, b);
  }

  // ---------------------------------------------------------------- from state to state

  /** Mutex `m` keeps its saved priority, and what was lent through it stays lent. */
  ghost predicate Carries(k: Track, k': Track, m: nat) {
    && m < |k.s.mux| == |k'.s.mux| && m < |k.lent| == |k'.lent|
    && k'.s.mux[m].saved == k.s.mux[m].saved
    && |k.lent[m]| <= |k'.lent[m]| && k'.lent[m][..|k.lent[m]|] == k.lent[m]
  }

  /** The priorities lent through `m` from `k` to `k'`. */
  function New(k: Track, k': Track, m: nat): seq<nat>
    requires m < |k.lent| && m < |k'.lent| && |k.lent[m]| <= |k'.lent[m]|
  {
    k'.lent[m][|k.lent[m]|..]
  }

  ghost predicate Both(k: Track, k': Track, t: nat) {
    TrackOk(k) && TrackOk(k') && t < |k.held| == |k'.held| && |k.s.mux| == |k'.s.mux|
  }

  /** What one step does to mutex `m` and to the priority of task `t`: a mutex it keeps
      carries on; holding that one alone, the task gets what is lent through it; taking
      it, the task has its priority saved there; letting go of it, the task is put
      back to the priority saved there. */
  ghost predicate MovesOn(k: Track, k': Track, t: nat, m: nat)
    requires Both(k, k', t)
  {
    && (m in k.held[t] && m in k'.held[t] ==>
          Carries(k, k', m) && (k.held[t] == [m] == k'.held[t] ==> k'.s.prio[t] == Best(k.s.prio[t], New(k, k', m))))
    && (m !in k.held[t] && m in k'.held[t] ==>
          m < |k'.s.mux| && k'.s.mux[m].saved == k.s.prio[t] == k'.s.prio[t] && k'.lent == k.lent[m := []])
    && (m in k.held[t] && m !in k'.held[t] ==>
          m < |k.s.mux| && k'.s.prio[t] == k.s.mux[m].saved && k'.held[t] == Without(k.held[t], m)
          && forall x | 0 <= x < |k.lent| && x != m :: k'.lent[x] == k.lent[x])
  }

  ghost predicate Moves(k: Track, k': Track, t: nat) {
    Both(k, k', t) && forall m: nat :: MovesOn(k, k', t, m)
  }

  /** Nothing the task holds is touched, nor its priority. */
  lemma QuietMoves(k: Track, k': Track, t: nat, m: nat)
    requires Both(k, k', t) && k'.held[t] == k.held[t] && k'.s.prio[t] == k.s.prio[t]
    requires m in k.held[t] ==> m < |k.lent| && m < |k'.lent| && m < |k.s.mux| && k'.lent[m] == k.lent[m] && k'.s.mux[m].saved == k.s.mux[m].saved
    ensures MovesOn(k, k', t, m)
  {
    hide Ok, TaskOk, HolderOk;
    if m in k.held[t] {
      assert New(k, k', m) == [];
    }
  }

  lemma GainMoves(k: Track, s': State, u: nat, n: nat, t: nat, m: nat)
    requires TrackOk(k) && u < |k.held| && n < |k.s.mux| && k.s.mux[n].count == 0
    requires s'.prio == k.s.prio && |s'.mux| == |k.s.mux| && s'.mux == k.s.mux[n := s'.mux[n]] && s'.mux[n].saved == k.s.prio[u]
    requires Both(k, Gain(k, u, n).(s := s'), t)
    ensures MovesOn(k, Gain(k, u, n).(s := s'), t, m)
  {
    var k' := Gain(k, u, n).(s := s');
    assert TaskOk(k, t);
    hide TrackOk;
    assert n !in k.held[t];
    if u != t || m != n {
      assert m in k.held[t] ==> Holds(k, t, m);
    }
  }

  lemma LendMoves(k: Track, s': State, n: nat, p: nat, t: nat, m: nat)
    requires TrackOk(k) && n < |k.s.mux| && k.s.mux[n].count > 0 && k.s.mux[n].owner < |k.s.prio|
    requires s'.prio == Boosted(k.s, k.s.mux[n].owner, p) && |s'.mux| == |k.s.mux| && s'.mux == k.s.mux[n := s'.mux[n]] && s'.mux[n].saved == k.s.mux[n].saved
    requires Both(k, LendTo(k, k.s.mux[n].owner, n, p).(s := s'), t)
    ensures MovesOn(k, LendTo(k, k.s.mux[n].owner, n, p).(s := s'), t, m)
  {
    var o := k.s.mux[n].owner;
    var k' := LendTo(k, o, n, p).(s := s');
    assert TaskOk(k, t);
    hide TrackOk;
    assert m in k.held[t] ==> Holds(k, t, m);
    if m == n && k.held[t] == [n] {
      assert n in k.held[t];
      assert New(k, k', n) == [p];
      assert [p][..0] == [];
      assert Best(k.s.prio[t], [p]) == k'.s.prio[t];
    } else if k.held[t] == [m] {
      assert n !in k.held[t] && o != t by {
        assert Holds(k, o, n);
      }
      assert New(k, k', m) == [];
    }
  }

  lemma PendMoves(k: Track, u: nat, n: nat, wait: bool, interrupt: bool, locked: bool, t: nat, m: nat)
    requires TrackOk(k) && Runs(k.s, u) && t < |k.held|
    requires Both(k, AfterPend(k, u, n, wait, interrupt, locked), t)
    ensures MovesOn(k, AfterPend(k, u, n, wait, interrupt, locked), t, m)
  {
    var k' := AfterPend(k, u, n, wait, interrupt, locked);
    PendOk(k.s, u, n, wait, interrupt, locked);
    hide MovesOn;
    assert TaskOk(k, t) && (m in k.held[t] ==> Holds(k, t, m));
    var r := PendRet(k.s, u, n, wait, interrupt, locked);
    if r == Acquired {
      GainMoves(k, k'.s, u, n, t, m);
    } else if r == Blocked {
      assert MuxOk(k.s.mux[n], |k.s.prio|);
      LendMoves(k, k'.s, n, k.s.prio[u], t, m);
    } else {
      QuietMoves(k, k', t, m);
    }
  }

  /** A release by `u`, with or without a hand-over. */
  lemma LoseMoves(k: Track, k': Track, u: nat, n: nat, t: nat, m: nat)
    requires Both(k, k', t) && u < |k.held| && n < |k.s.mux| && Holds(k, u, n)
    requires k'.s.prio == k.s.prio[u := k.s.mux[n].saved] && k'.s.mux == k.s.mux[n := k'.s.mux[n]]
    requires k'.held[t] == if t == u then Without(k.held[t], n) else if Holds(k', t, n) then k.held[t] + [n] else k.held[t]
    requires k'.lent == if k'.s.mux[n].count > 0 then k.lent[n := []] else k.lent
    requires k'.s.mux[n].count > 0 ==> k'.s.mux[n].owner != u && k'.s.mux[n].owner < |k.s.prio| && k'.s.mux[n].saved == k.s.prio[k'.s.mux[n].owner]
    ensures MovesOn(k, k', t, m)
  {
    assert TaskOk(k, t);
    WithoutMembers(k.held[t], n);
    hide TrackOk;
    assert m in k.held[t] ==> Holds(k, t, m);
    assert n in k.held[t] <==> t == u;
    if m in k.held[t] && m in k'.held[t] {
      assert m != n;
      assert New(k, k', m) == [];
    }
  }

  lemma PostMoves(k: Track, u: nat, n: nat, t: nat, m: nat)
    requires TrackOk(k) && Runs(k.s, u) && t < |k.held|
    requires Both(k, AfterPost(k, u, n), t)
    ensures MovesOn(k, AfterPost(k, u, n), t, m)
  {
    var k' := AfterPost(k, u, n);
    PostOk(k.s, u, n);
    hide MovesOn;
    assert TaskOk(k, t) && (m in k.held[t] ==> Holds(k, t, m));
    if PostRet(k.s, u, n) in {Released, HandedOver} {
      PostMeans(k.s, u, n);
      LoseMoves(k, k', u, n, t, m);
    } else {
      QuietMoves(k, k', t, m);
    }
  }

  lemma RestMoves(k: Track, e: Event, t: nat, m: nat)
    requires TrackOk(k) && Enabled(k, e) && !e.EvPend? && !e.EvPost? && Both(k, Next(k, e), t)
    ensures MovesOn(k, Next(k, e), t, m)
  {
    assert TaskOk(k, t) && (m in k.held[t] ==> Holds(k, t, m));
    QuietMoves(k, Next(k, e), t, m);
  }

  lemma NextSizes(k: Track, e: Event)
    requires TrackOk(k) && Enabled(k, e)
    ensures |Next(k, e).held| == |k.held| && |Next(k, e).s.mux| == |k.s.mux|
  {
    if e.EvPend? {
      PendOk(k.s, e.task, e.m, e.wait, e.interrupt, e.locked);
    } else if e.EvPost? {
      PostOk(k.s, e.task, e.m);
    }
  }

  lemma StepMoves(k: Track, e: Event, t: nat)
    requires TrackOk(k) && Enabled(k, e) && t < |k.held|
    ensures Moves(k, Next(k, e), t)
  {
    StepOk(k, e);
    NextSizes(k, e);
    hide TrackOk, MovesOn;
    forall m: nat ensures MovesOn(k, Next(k, e), t, m) {
      match e
      case EvPend(u, n, wait, interrupt, locked) => PendMoves(k, u, n, wait, interrupt, locked, t, m);
      case EvPost(u, n) => PostMoves(k, u, n, t, m);
      case _ => RestMoves(k, e, t, m);
    }
  }

  /** What step `e` lends to the owner of `m`: the priority of a task that blocks on it. */
  function Lending(k: Track, e: Event, m: nat): seq<nat> {
    if e.EvPend? && e.m == m && e.task < |k.s.prio| && PendRet(k.s, e.task, m, e.wait, e.interrupt, e.locked) == Blocked
    then [k.s.prio[e.task]] else []
  }

  lemma StepLends(k: Track, e: Event, t: nat, m: nat)
    requires TrackOk(k) && Enabled(k, e) && t < |k.held| && Both(k, Next(k, e), t)
    requires m in k.held[t] && m in Next(k, e).held[t]
    ensures m < |k.lent| && m < |Next(k, e).lent| && Next(k, e).lent[m] == k.lent[m] + Lending(k, e, m)
  {
    assert TaskOk(k, t) && Holds(k, t, m) && TaskOk(Next(k, e), t) && Holds(Next(k, e), t, m);
    if e.EvPost? {
      PostLends(k, e.task, e.m, t, m);
    } else {
      hide TrackOk;
    }
  }

  lemma PostLends(k: Track, u: nat, n: nat, t: nat, m: nat)
    requires TrackOk(k) && Runs(k.s, u) && m < |k.lent| && m < |AfterPost(k, u, n).lent|
    requires Holds(k, t, m) && Holds(AfterPost(k, u, n), t, m)
    ensures AfterPost(k, u, n).lent[m] == k.lent[m]
  {
    if PostRet(k.s, u, n) == HandedOver {
      PostMeans(k.s, u, n);
    }
  }

  // ---------------------------------------------------------------- over runs

  /** States of which each follows from the one before by a step as described above. */
  ghost predicate History(ks: seq<Track>, t: nat) {
    && ks != [] && TrackOk(ks[0]) && t < |ks[0].held|
    && forall i | 0 <= i < |ks| - 1 :: Moves(ks[i], ks[i + 1], t)
  }

  ghost predicate HeldThroughout(ks: seq<Track>, t: nat, m: nat, i: nat, j: nat) {
    forall x | i <= x <= j < |ks| :: t < |ks[x].held| && m in ks[x].held[t]
  }

  ghost predicate AloneThroughout(ks: seq<Track>, t: nat, m: nat, i: nat, j: nat) {
    forall x | i <= x <= j < |ks| :: t < |ks[x].held| && ks[x].held[t] == [m]
  }

  lemma StateOf(ks: seq<Track>, t: nat, i: nat)
    requires History(ks, t) && i < |ks|
    ensures TrackOk(ks[i]) && t < |ks[i].held|
  {
    hide TrackOk, MovesOn;
    if i > 0 {
      assert Moves(ks[i - 1], ks[i - 1 + 1], t);
    }
  }

  lemma CarriesOn(a: Track, b: Track, c: Track, m: nat)
    requires Carries(a, b, m) && Carries(b, c, m)
    ensures Carries(a, c, m) && New(a, c, m) == New(a, b, m) + New(b, c, m)
  {
    assert c.lent[m] == b.lent[m] + New(b, c, m) == a.lent[m] + New(a, b, m) + New(b, c, m);
  }

  /** While a task holds a mutex, whatever else it does, that mutex carries on. */
  lemma {:induction false} CarriesThrough(ks: seq<Track>, t: nat, m: nat, i: nat, j: nat)
    requires History(ks, t) && i <= j < |ks| && HeldThroughout(ks, t, m, i, j)
    ensures Carries(ks[i], ks[j], m)
    decreases j
  {
    StateOf(ks, t, i);
    if i == j {
      assert TaskOk(ks[i], t) && Holds(ks[i], t, m);
    } else {
      hide TrackOk;
      assert HeldThroughout(ks, t, m, i, j - 1);
      CarriesThrough(ks, t, m, i, j - 1);
      assert Moves(ks[j - 1], ks[j - 1 + 1], t) && MovesOn(ks[j - 1], ks[j], t, m);
      CarriesOn(ks[i], ks[j - 1], ks[j], m);
    }
  }

  /** While a task holds one mutex alone, its priority is the best of the one it had at
      the beginning and those lent to it since. */
  lemma {:induction false} LentThrough(ks: seq<Track>, t: nat, m: nat, i: nat, j: nat)
    requires History(ks, t) && i <= j < |ks| && AloneThroughout(ks, t, m, i, j)
    ensures TrackOk(ks[i]) && TrackOk(ks[j]) && t < |ks[i].held| && t < |ks[j].held| && Carries(ks[i], ks[j], m)
    ensures ks[j].s.prio[t] == Best(ks[i].s.prio[t], New(ks[i], ks[j], m))
    decreases j
  {
    StateOf(ks, t, i);
    StateOf(ks, t, j);
    assert m in [m] && HeldThroughout(ks, t, m, i, j);
    CarriesThrough(ks, t, m, i, j);
    hide TrackOk;
    if i == j {
      assert New(ks[i], ks[j], m) == [];
    } else {
      assert AloneThroughout(ks, t, m, i, j - 1) && HeldThroughout(ks, t, m, i, j - 1);
      LentThrough(ks, t, m, i, j - 1);
      assert Moves(ks[j - 1], ks[j - 1 + 1], t) && MovesOn(ks[j - 1], ks[j], t, m);
      CarriesOn(ks[i], ks[j - 1], ks[j], m);
      BestAppend(ks[i].s.prio[t], New(ks[i], ks[j - 1], m), New(ks[j - 1], ks[j], m));
    }
  }

  lemma PromiseAt(k: Track, k': Track, m: nat)
    requires Carries(k, k', m)
    ensures Promised(k', m) == Best(Promised(k, m), New(k, k', m))
  {
    assert k'.lent[m] == k.lent[m] + New(k, k', m);
    BestAppend(k.s.mux[m].saved, k.lent[m], New(k, k', m));
  }

  /** A tenure without nesting: a task that held nothing takes `m` and holds nothing
      else; it has the promised priority all along. */
  lemma LoneTenure(ks: seq<Track>, t: nat, m: nat, i: nat, j: nat)
    requires History(ks, t) && i < j < |ks|
    requires t < |ks[i].held| && ks[i].held[t] == [] && AloneThroughout(ks, t, m, i + 1, j)
    ensures Exact(ks[j], t, m)
  {
    LentThrough(ks, t, m, i + 1, j);
    assert Moves(ks[i], ks[i + 1], t);
    hide TrackOk;
    assert MovesOn(ks[i], ks[i + 1], t, m) && m in ks[i + 1].held[t];
    PromiseAt(ks[i + 1], ks[j], m);
  }

  /** After nesting: the task lets go of `b` and holds `m` alone from then on.  It has
      the promised priority exactly when the priority saved in `b` was what `m` promised
      at the release, or a task at least as good as both has blocked on `m` since. */
  lemma AfterNesting(ks: seq<Track>, t: nat, m: nat, b: nat, i: nat, j: nat)
    requires History(ks, t) && i < j < |ks| && b != m
    requires t < |ks[i].held| && b in ks[i].held[t] && AloneThroughout(ks, t, m, i + 1, j)
    ensures b < |ks[i].s.mux| && m < |ks[i].s.mux| && m < |ks[i].lent| && m < |ks[j].lent| && |ks[i].lent[m]| <= |ks[j].lent[m]|
    ensures var saved, promised := ks[i].s.mux[b].saved, Promised(ks[i], m);
      Exact(ks[j], t, m) <==> saved == promised || exists p <- New(ks[i], ks[j], m) :: p <= saved && p <= promised
  {
    LentThrough(ks, t, m, i + 1, j);
    assert Moves(ks[i], ks[i + 1], t);
    assert TaskOk(ks[i], t) && Holds(ks[i], t, b);
    WithoutMembers(ks[i].held[t], b);
    hide TrackOk;
    assert MovesOn(ks[i], ks[i + 1], t, b) && MovesOn(ks[i], ks[i + 1], t, m);
    assert m in ks[i + 1].held[t] && b !in ks[i + 1].held[t];
    CarriesOn(ks[i], ks[i + 1], ks[j], m);
    assert New(ks[i], ks[i + 1], m) == [];
    PromiseAt(ks[i], ks[j], m);
    BestAgree(ks[i].s.mux[b].saved, Promised(ks[i], m), New(ks[i], ks[j], m));
  }

  /** Properly nested locks: with just `m` held and the promise kept, the task takes `b`,
      does what it likes and lets go of `b`, holding `m` all along.  It comes back to
      the priority it had, and the promise is still kept exactly when no better task
      has blocked on `m` in the meantime. */
  lemma NestedLock(ks: seq<Track>, t: nat, m: nat, b: nat, i: nat, j: nat)
    requires History(ks, t) && i < j && j + 1 < |ks|
    requires t < |ks[i].held| && ks[i].held[t] == [m] && b != m && Exact(ks[i], t, m)
    requires HeldThroughout(ks, t, m, i, j) && HeldThroughout(ks, t, b, i + 1, j)
    requires t < |ks[j + 1].held| && ks[j + 1].held[t] == [m]
    ensures t < |ks[j + 1].s.prio| && ks[j + 1].s.prio[t] == ks[i].s.prio[t]
    ensures m < |ks[j].lent| && |ks[i].lent[m]| <= |ks[j].lent[m]|
    ensures Exact(ks[j + 1], t, m) <==> forall p <- New(ks[i], ks[j], m) :: ks[i].s.prio[t] <= p
  {
    CarriesThrough(ks, t, m, i, j);
    CarriesThrough(ks, t, b, i + 1, j);
    assert Moves(ks[i], ks[i + 1], t) && Moves(ks[j], ks[j + 1], t);
    hide TrackOk;
    assert b in ks[i + 1].held[t] && b in ks[j].held[t] && m in ks[j].held[t] && m in ks[j + 1].held[t];
    assert MovesOn(ks[i], ks[i + 1], t, b) && MovesOn(ks[j], ks[j + 1], t, b) && MovesOn(ks[j], ks[j + 1], t, m);
    CarriesOn(ks[i], ks[j], ks[j + 1], m);
    assert New(ks[j], ks[j + 1], m) == [];
    PromiseAt(ks[i], ks[j + 1], m);
    BestAgree(ks[i].s.prio[t], ks[i].s.prio[t], New(ks[i], ks[j], m));
  }

  /** Any run of mutex calls and timeouts is such a history, for every task. */
  lemma RunIsHistory(states: seq<Track>, events: seq<Event>, t: nat)
    requires IsRun(states, events) && t < |states[0].held|
    ensures History(states, t)
  {
    hide TrackOk, Next, Enabled, Moves;
    forall i | 0 <= i < |events| ensures Moves(states[i], states[i + 1], t) {
      assert StepTo(states[i], events[i], states[i + 1]);
      RunSizes(states, events, i);
      StepMoves(states[i], events[i], t);
    }
  }

  lemma {:induction false} RunSizes(states: seq<Track>, events: seq<Event>, n: nat)
    requires IsRun(states, events) && n <= |events|
    ensures |states[n].held| == |states[0].held|
  {
    hide TrackOk, Next, Enabled;
    if n > 0 {
      RunSizes(states, events, n - 1);
      assert StepTo(states[n - 1], events[n - 1], states[n - 1 + 1]);
      NextSizes(states[n - 1], events[n - 1]);
    }
  }

  // ---------------------------------------------------------------- a boost is lost

  /** A run that ends with task `t` holding just `m`, which another task waits for, at a
      priority worse than the promised one. */
  ghost predicate LosesBoost(states: seq<Track>, events: seq<Event>, t: nat, m: nat, has: nat, promised: nat) {
    && IsRun(states, events)
    && (var z := states[|events|];
        && t < |z.held| && t < |z.s.prio| && m < |z.s.mux| && m < |z.lent|
        && z.held[t] == [m] && z.s.mux[m].waiters != [] && z.s.prio[t] == has && Promised(z, m) == promised)
  }

  /** Properly nested locks do lose a boost: task 0 (priority 10) takes A and B, task 1
      (priority 5) blocks on A, task 0 releases B.  It goes back to priority 10 while it
      holds A and task 1 waits for A. */
  lemma BoostLost()
    ensures exists states: seq<Track>, events: seq<Event> :: LosesBoost(states, events, 0, 0, 10, 5)
  {
    hide StepTo, TrackOk, Next, Enabled, IsRun;
    var k0 := ScenarioStart();
    StartOk();
    var k1 := TakeA(k0);
    var k2 := TakeBToo(k1);
    var k3 := BoostHolder(k2);
    var k4 := PostB(k3);
    var states := [k0, k1, k2, k3, k4];
    var events := [EvPend(0, 0, true, false, false), EvPend(0, 1, true, false, false), EvPend(1, 0, true, false, false), EvPost(0, 1)];
    FourSteps(states, events);
    assert LosesBoost(states, events, 0, 0, 10, 5);
  }

  lemma FourSteps(states: seq<Track>, events: seq<Event>)
    requires |states| == 5 && |events| == 4 && TrackOk(states[0])
    requires StepTo(states[0], events[0], states[1]) && StepTo(states[1], events[1], states[2])
    requires StepTo(states[2], events[2], states[3]) && StepTo(states[3], events[3], states[4])
    ensures IsRun(states, events)
  {
    hide StepTo, TrackOk;
  }

  lemma TakeBToo(k: Track) returns (k': Track)
    requires Pair(k) && k.s.prio == [10, 5] && k.held[0] == [0] && k.lent[0] == []
    requires k.s.mux[0] == Mux(true, 1, 0, 10, []) && k.s.mux[1] == IDLE
    ensures StepTo(k, EvPend(0, 1, true, false, false), k') && Pair(k') && k'.held[0] == [0, 1] && k'.lent[0] == []
    ensures k'.s.prio == [10, 5] && k'.s.mux[0] == Mux(true, 1, 0, 10, []) && k'.s.mux[1] == Mux(true, 1, 0, 10, [])
  {
    hide TrackOk;
    StepOk(k, EvPend(0, 1, true, false, false));
    k' := Next(k, EvPend(0, 1, true, false, false));
  }

  lemma BoostHolder(k: Track) returns (k': Track)
    requires Pair(k) && k.s.prio == [10, 5] && k.held[0] == [0, 1] && k.lent[0] == []
    requires k.s.mux[0] == Mux(true, 1, 0, 10, []) && k.s.mux[1] == Mux(true, 1, 0, 10, [])
    ensures StepTo(k, EvPend(1, 0, true, false, false), k') && Pair(k') && k'.held[0] == [0, 1] && k'.lent[0] == [5]
    ensures k'.s.mux[0].waiters == [1] && k'.s.mux[0] == Mux(true, 1, 0, 10, k'.s.mux[0].waiters) && k'.s.mux[1] == Mux(true, 1, 0, 10, [])
  {
    hide TrackOk;
    StepOk(k, EvPend(1, 0, true, false, false));
    k' := Next(k, EvPend(1, 0, true, false, false));
  }

  lemma PostB(k: Track) returns (k': Track)
    requires Pair(k) && k.held[0] == [0, 1] && k.lent[0] == [5] && k.s.mux[0].waiters == [1]
    requires k.s.mux[0] == Mux(true, 1, 0, 10, k.s.mux[0].waiters) && k.s.mux[1] == Mux(true, 1, 0, 10, [])
    ensures StepTo(k, EvPost(0, 1), k') && Pair(k') && k'.held[0] == [0] && k'.s.mux[0].waiters == [1]
    ensures k'.s.prio[0] == 10 && Promised(k', 0) == 5
  {
    hide TrackOk;
    StepOk(k, EvPost(0, 1));
    k' := Next(k, EvPost(0, 1));
    assert Without([0, 1], 1) == [0] by {
      assert [0, 1][1..] == [1] && Without([1], 1) == [];
    }
    assert Best(10, [5]) == 5 by {
      assert [5][..0] == [] && Best(10, []) == 10;
    }
  }
}
