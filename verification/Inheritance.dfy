/** Priority inheritance over whole runs of mutex calls.  Beside the kernel's own
    state, `Track` records what a proof needs to remember: which mutexes a task holds
    in order of acquisition, its priority when it last held none, the priority it was
    last put at and those lent to it since, and for each mutex the priorities lent to
    its owner in this tenure. */
module Inheritance {
  import opened Mutex

  /** `nested[t]` says that the mutex `t` acquired when it last held none is still held.
      `anchor[t]` is the priority of `t` when it acquired its first mutex or, if that was
      later, the one its latest release put it back to; `since[t]` are the priorities
      lent to it after that. */
  datatype Track = Track(s: State, held: seq<seq<nat>>, first: seq<nat>, nested: seq<bool>, base: seq<nat>, anchor: seq<nat>, since: seq<seq<nat>>, lent: seq<seq<nat>>)

  function Without(l: seq<nat>, x: nat): seq<nat> {
    if l == [] then [] else if l[0] == x then l[1..] else [l[0]] + Without(l[1..], x)
  }

  lemma {:induction false} WithoutMembers(l: seq<nat>, x: nat)
    requires Distinct(l)
    ensures Distinct(Without(l, x)) && forall y :: y in Without(l, x) <==> y in l && y != x
  {
    if l != [] {
      WithoutMembers(l[1..], x);
      assert l == [l[0]] + l[1..] && l[0] !in l[1..];
    }
  }

  /** The best of `p` and the priorities in `l`. */
  function Best(p: nat, l: seq<nat>): nat {
    if l == [] then p
    else
      var b := Best(p, l[..|l| - 1]);
      if l[|l| - 1] < b then l[|l| - 1] else b
  }

  predicate Sizes(k: Track) {
    && |k.held| == |k.first| == |k.nested| == |k.base| == |k.anchor| == |k.since| == |k.s.prio|
    && |k.lent| == |k.s.mux|
  }

  /** Task `t` becomes the owner of `m`. */
  function Gain(k: Track, t: nat, m: nat): Track
    requires Sizes(k) && t < |k.held| && m < |k.lent|
  {
    var alone := k.held[t] == [];
    k.(held := k.held[t := k.held[t] + [m]],
       first := if alone then k.first[t := m] else k.first,
       nested := if alone then k.nested[t := true] else k.nested,
       base := if alone then k.base[t := k.s.prio[t]] else k.base,
       anchor := if alone then k.anchor[t := k.s.prio[t]] else k.anchor,
       since := if alone then k.since[t := []] else k.since,
       lent := k.lent[m := []])
  }

  /** Task `t` lets go of `m` and is put back to the priority saved in it. */
  function Lose(k: Track, t: nat, m: nat): Track
    requires Sizes(k) && t < |k.held| && m < |k.s.mux|
  {
    k.(held := k.held[t := Without(k.held[t], m)],
       nested := k.nested[t := k.nested[t] && m != k.first[t]],
       anchor := k.anchor[t := k.s.mux[m].saved],
       since := k.since[t := []])
  }

  /** Priority `p` is lent to `t`, which owns `m`. */
  function LendTo(k: Track, t: nat, m: nat, p: nat): Track
    requires t < |k.since| && m < |k.lent|
  {
    k.(since := k.since[t := k.since[t] + [p]], lent := k.lent[m := k.lent[m] + [p]])
  }

  ghost predicate Holds(k: Track, t: nat, m: nat) {
    m < |k.s.mux| && k.s.mux[m].count > 0 && k.s.mux[m].owner == t
  }

  ghost predicate TaskOk(k: Track, t: nat)
    requires Sizes(k) && t < |k.held|
  {
    && Distinct(k.held[t])
    && (forall m: nat :: m in k.held[t] <==> Holds(k, t, m))
    && (k.nested[t] ==> k.first[t] in k.held[t] && k.s.mux[k.first[t]].saved == k.base[t])
  }

  predicate EndsWith(l: seq<nat>, end: seq<nat>) {
    |end| <= |l| && l[|l| - |end|..] == end
  }

  /** The priority of any holder, however its mutexes are nested: the best of the one
      it was last put at and those lent to it since.  If it holds one mutex, all of
      these were lent through that mutex. */
  ghost predicate HolderOk(k: Track, t: nat)
    requires Sizes(k) && t < |k.held|
  {
    && (k.held[t] != [] ==> k.s.prio[t] == Best(k.anchor[t], k.since[t]))
    && (|k.held[t]| == 1 ==> k.held[t][0] < |k.lent| && EndsWith(k.lent[k.held[t][0]], k.since[t]))
  }

  ghost predicate TrackOk(k: Track) {
    && Sizes(k) && Ok(k.s)
    && (forall t | 0 <= t < |k.held| :: TaskOk(k, t))
    && (forall t | 0 <= t < |k.held| :: HolderOk(k, t))
  }

  // ---------------------------------------------------------------- steps

  datatype Event =
    | EvPend(task: nat, m: nat, wait: bool, interrupt: bool, locked: bool)
    | EvPost(task: nat, m: nat)
    | EvExpire(m: nat, i: nat)
    | EvCreate(m: nat)
    | EvDelete(m: nat)

  ghost predicate Enabled(k: Track, e: Event) {
    match e
    case EvPend(t, _, _, _, _) => Runs(k.s, t)
    case EvPost(t, _) => Runs(k.s, t)
    case EvExpire(m, i) => m < |k.s.mux| && i < |k.s.mux[m].waiters|
    case EvCreate(m) => m < |k.s.mux| && !k.s.mux[m].used
    case EvDelete(_) => true
  }

  ghost function AfterPend(k: Track, t: nat, m: nat, wait: bool, interrupt: bool, locked: bool): Track
    requires TrackOk(k) && Runs(k.s, t)
  {
    PendOk(k.s, t, m, wait, interrupt, locked);
    var s' := Pend(k.s, t, m, wait, interrupt, locked);
    match PendRet(k.s, t, m, wait, interrupt, locked)
    case Acquired => Gain(k, t, m).(s := s')
    case Blocked =>
      assert MuxOk(k.s.mux[m], |k.s.prio|);
      LendTo(k, k.s.mux[m].owner, m, k.s.prio[t]).(s := s')
    case _ => k.(s := s')
  }

  ghost function AfterPost(k: Track, t: nat, m: nat): Track
    requires TrackOk(k) && Runs(k.s, t)
  {
    PostOk(k.s, t, m);
    var s' := Post(k.s, t, m);
    match PostRet(k.s, t, m)
    case Released => Lose(k, t, m).(s := s')
    case HandedOver =>
      PostMeans(k.s, t, m);
      Gain(Lose(k, t, m).(s := s'), s'.mux[m].owner, m)
    case _ => k.(s := s')
  }

  ghost function Next(k: Track, e: Event): Track
    requires TrackOk(k) && Enabled(k, e)
  {
    match e
    case EvPend(t, m, wait, interrupt, locked) => AfterPend(k, t, m, wait, interrupt, locked)
    case EvPost(t, m) => AfterPost(k, t, m)
    case EvExpire(m, i) => k.(s := Expire(k.s, m, i))
    case EvCreate(m) => k.(s := Create(k.s, m))
    case EvDelete(m) => k.(s := Delete(k.s, m))
  }

  /** Gaining a mutex that nobody holds. */
  lemma GainOk(k: Track, s': State, t: nat, m: nat)
    requires TrackOk(k) && t < |k.held| && m < |k.s.mux| && k.s.mux[m].count == 0
    requires Ok(s') && s'.prio == k.s.prio && |s'.mux| == |k.s.mux|
    requires forall n | 0 <= n < |s'.mux| && n != m :: s'.mux[n] == k.s.mux[n]
    requires var x := s'.mux[m]; x.count > 0 && x.owner == t && x.saved == k.s.prio[t]
    ensures TrackOk(Gain(k, t, m).(s := s'))
  {
    var k' := Gain(k, t, m).(s := s');
    assert TaskOk(k, t);
    assert m !in k.held[t];
    forall u | 0 <= u < |k.held| ensures TaskOk(k', u) {
      assert TaskOk(k, u);
      assert forall n: nat :: Holds(k', u, n) <==> (if n == m then u == t else Holds(k, u, n));
    }
    forall u | 0 <= u < |k.held| ensures HolderOk(k', u) {
      assert TaskOk(k, u) && HolderOk(k, u) && !Holds(k, u, m);
    }
  }

  /** Giving up a mutex restores the owner's saved priority. */
  lemma LoseOk(k: Track, s': State, t: nat, m: nat)
    requires TrackOk(k) && t < |k.held| && m < |k.s.mux| && Holds(k, t, m)
    requires Ok(s') && s'.prio == k.s.prio[t := k.s.mux[m].saved] && |s'.mux| == |k.s.mux|
    requires forall n | 0 <= n < |s'.mux| && n != m :: s'.mux[n] == k.s.mux[n]
    requires s'.mux[m].count == 0
    ensures TrackOk(Lose(k, t, m).(s := s'))
  {
    var k' := Lose(k, t, m).(s := s');
    assert TaskOk(k, t);
    WithoutMembers(k.held[t], m);
    forall u | 0 <= u < |k.held| ensures TaskOk(k', u) {
      assert TaskOk(k, u);
      assert forall n: nat :: Holds(k', u, n) <==> Holds(k, u, n) && n != m;
    }
    forall u | 0 <= u < |k.held| ensures HolderOk(k', u) {
      assert HolderOk(k, u) && TaskOk(k', u);
      if |k'.held[u]| == 1 {
        assert k'.held[u][0] in k'.held[u] && Holds(k', u, k'.held[u][0]);
      }
    }
  }

  /** A change to one mutex that leaves its owner and saved priority alone, without
      touching priorities. */
  lemma QuietOk(k: Track, s': State)
    requires TrackOk(k) && Ok(s') && s'.prio == k.s.prio && |s'.mux| == |k.s.mux|
    requires forall n | 0 <= n < |s'.mux| ::
      var x, y := k.s.mux[n], s'.mux[n];
      (x.count > 0 <==> y.count > 0) && (x.count > 0 ==> y.owner == x.owner && y.saved == x.saved)
    ensures TrackOk(k.(s := s'))
  {
    var k' := k.(s := s');
    forall u | 0 <= u < |k.held| ensures TaskOk(k', u) {
      assert TaskOk(k, u);
      assert forall n: nat :: Holds(k', u, n) <==> Holds(k, u, n);
    }
    forall u | 0 <= u < |k.held| ensures HolderOk(k', u) {
      assert HolderOk(k, u);
    }
  }

  /** A task that blocks lends its priority to the owner. */
  lemma LendOk(k: Track, s': State, m: nat, p: nat)
    requires TrackOk(k) && m < |k.s.mux| && k.s.mux[m].count > 0 && k.s.mux[m].owner < |k.s.prio|
    requires Ok(s') && s'.prio == Boosted(k.s, k.s.mux[m].owner, p) && |s'.mux| == |k.s.mux|
    requires forall n | 0 <= n < |s'.mux| && n != m :: s'.mux[n] == k.s.mux[n]
    requires s'.mux[m] == k.s.mux[m].(waiters := s'.mux[m].waiters)
    ensures TrackOk(LendTo(k, k.s.mux[m].owner, m, p).(s := s'))
  {
    var o := k.s.mux[m].owner;
    var k' := LendTo(k, o, m, p).(s := s');
    assert TaskOk(k, o) && Holds(k, o, m) && m in k.held[o];
    forall u | 0 <= u < |k.held| ensures TaskOk(k', u) {
      assert TaskOk(k, u);
      assert forall n: nat :: Holds(k', u, n) <==> Holds(k, u, n);
    }
    forall u | 0 <= u < |k.held| ensures HolderOk(k', u) {
      assert HolderOk(k, u) && TaskOk(k, u);
      if u == o {
        assert (k.since[o] + [p])[..|k.since[o]|] == k.since[o];
      } else {
        assert !Holds(k, u, m);
      }
    }
  }

  lemma AfterPendOk(k: Track, t: nat, m: nat, wait: bool, interrupt: bool, locked: bool)
    requires TrackOk(k) && Runs(k.s, t)
    ensures TrackOk(AfterPend(k, t, m, wait, interrupt, locked))
  {
    PendOk(k.s, t, m, wait, interrupt, locked);
    var s' := Pend(k.s, t, m, wait, interrupt, locked);
    match PendRet(k.s, t, m, wait, interrupt, locked)
    case Acquired => GainOk(k, s', t, m);
    case Blocked =>
      assert MuxOk(k.s.mux[m], |k.s.prio|);
      LendOk(k, s', m, k.s.prio[t]);
    case Again => QuietOk(k, s');
    case _ =>
  }

  lemma AfterPostOk(k: Track, t: nat, m: nat)
    requires TrackOk(k) && Runs(k.s, t)
    ensures TrackOk(AfterPost(k, t, m))
  {
    PostOk(k.s, t, m);
    var s' := Post(k.s, t, m);
    match PostRet(k.s, t, m)
    case Released => LoseOk(k, s', t, m);
    case HandedOver =>
      PostMeans(k.s, t, m);
      var free := State(s'.prio, k.s.mux[m := k.s.mux[m].(count := 0, waiters := [])]);
      assert MuxOk(k.s.mux[m], |k.s.prio|);
      OneMux(k.s, free, m);
      LoseOk(k, free, t, m);
      var next := s'.mux[m].owner;
      GainOk(Lose(k, t, m).(s := free), s', next, m);
      assert Gain(Lose(k, t, m).(s := free), next, m).(s := s') == AfterPost(k, t, m);
    case Again => QuietOk(k, s');
    case _ =>
  }

  /** Every step keeps what is recorded true. */
  lemma StepOk(k: Track, e: Event)
    requires TrackOk(k) && Enabled(k, e)
    ensures TrackOk(Next(k, e))
  {
    hide TrackOk, AfterPend, AfterPost;
    match e
    case EvPend(t, m, wait, interrupt, locked) => AfterPendOk(k, t, m, wait, interrupt, locked);
    case EvPost(t, m) => AfterPostOk(k, t, m);
    case EvExpire(m, i) => QuietStep(k, e, Expire(k.s, m, i));
    case EvCreate(m) => QuietStep(k, e, Create(k.s, m));
    case EvDelete(m) => QuietStep(k, e, Delete(k.s, m));
  }

  lemma QuietStep(k: Track, e: Event, s': State)
    requires TrackOk(k) && Enabled(k, e)
    requires (e.EvExpire? && s' == Expire(k.s, e.m, e.i)) || (e.EvCreate? && s' == Create(k.s, e.m)) || (e.EvDelete? && s' == Delete(k.s, e.m))
    ensures TrackOk(k.(s := s'))
  {
    if e.EvExpire? {
      ExpireOk(k.s, e.m, e.i);
    } else if e.EvCreate? {
      CreateOk(k.s, e.m);
      assert MuxOk(k.s.mux[e.m], |k.s.prio|);
    } else {
      DeleteOk(k.s, e.m);
    }
    QuietOk(k, s');
  }

  // ---------------------------------------------------------------- what it means

  /** Nothing but a mutex it holds can change a task's priority.  A task that gains
      its first mutex has its priority remembered. */
  lemma OnlyHoldersChange(k: Track, e: Event, t: nat)
    requires TrackOk(k) && Enabled(k, e) && t < |k.held| && k.held[t] == []
    ensures Same(k, Next(k, e), t)
  {
    StepOk(k, e);
    if e.EvPend? {
      IdleDuringPend(k, e.task, e.m, e.wait, e.interrupt, e.locked, t);
    } else if e.EvPost? {
      IdleDuringPost(k, e.task, e.m, t);
    }
  }

  ghost predicate Same(k: Track, k': Track, t: nat) {
    && TrackOk(k) && TrackOk(k') && t < |k.held| == |k'.held|
    && k'.s.prio[t] == k.s.prio[t]
    && (k'.held[t] != [] ==> k'.nested[t] && k'.base[t] == k.s.prio[t])
  }

  lemma IdleDuringPend(k: Track, u: nat, m: nat, wait: bool, interrupt: bool, locked: bool, t: nat)
    requires TrackOk(k) && Runs(k.s, u) && t < |k.held| && k.held[t] == []
    ensures Same(k, AfterPend(k, u, m, wait, interrupt, locked), t)
  {
    AfterPendOk(k, u, m, wait, interrupt, locked);
    if PendRet(k.s, u, m, wait, interrupt, locked) == Blocked {
      assert TaskOk(k, t) && Holds(k, k.s.mux[m].owner, m);
    }
  }

  lemma IdleDuringPost(k: Track, u: nat, m: nat, t: nat)
    requires TrackOk(k) && Runs(k.s, u) && t < |k.held| && k.held[t] == []
    ensures Same(k, AfterPost(k, u, m), t)
  {
    AfterPostOk(k, u, m);
    if PostRet(k.s, u, m) != Invalid {
      PostMeans(k.s, u, m);
      assert TaskOk(k, t) && Holds(k, u, m);
    }
  }

  /** Task `t` held just `m` and has released it. */
  ghost predicate LetsGo(k: Track, k': Track, t: nat, m: nat)
    requires TrackOk(k) && TrackOk(k') && t < |k.held| == |k'.held|
  {
    && k.held[t] == [m] && Holds(k, t, m)
    && k'.s.prio[t] == k.s.mux[m].saved
    && (k.nested[t] ==> k.s.mux[m].saved == k.base[t])
  }

  /** A task that holds mutexes keeps its remembered priority until the last release.
      That release gives it the priority it had when it acquired the mutex released,
      which is the remembered one if that was the first mutex. */
  lemma HolderStep(k: Track, e: Event, t: nat)
    requires TrackOk(k) && Enabled(k, e) && t < |k.held| && k.held[t] != []
    ensures var k' := Next(k, e);
      && TrackOk(k') && |k'.held| == |k.held|
      && (k'.held[t] != [] ==> k'.base[t] == k.base[t])
      && (k'.held[t] == [] ==> e.EvPost? && e.task == t && LetsGo(k, k', t, e.m))
  {
    StepOk(k, e);
    if e.EvPend? {
      HolderDuringPend(k, e.task, e.m, e.wait, e.interrupt, e.locked, t);
    } else if e.EvPost? {
      HolderDuringPost(k, e.task, e.m, t);
    }
  }

  lemma HolderDuringPend(k: Track, u: nat, m: nat, wait: bool, interrupt: bool, locked: bool, t: nat)
    requires TrackOk(k) && Runs(k.s, u) && t < |k.held| && k.held[t] != []
    ensures var k' := AfterPend(k, u, m, wait, interrupt, locked);
      |k'.held| == |k.held| && |k'.base| == |k.held| && k'.held[t] != [] && k'.base[t] == k.base[t]
  {
  }

  lemma HolderDuringPost(k: Track, u: nat, m: nat, t: nat)
    requires TrackOk(k) && Runs(k.s, u) && t < |k.held| && k.held[t] != []
    ensures var k' := AfterPost(k, u, m);
      && TrackOk(k') && |k'.held| == |k.held|
      && (k'.held[t] != [] ==> k'.base[t] == k.base[t])
      && (k'.held[t] == [] ==> u == t && LetsGo(k, k', t, m))
  {
    AfterPostOk(k, u, m);
    assert TaskOk(k, t);
    if PostRet(k.s, u, m) != Invalid {
      PostMeans(k.s, u, m);
      if u == t {
        WithoutMembers(k.held[t], m);
        assert Holds(k, t, m) && m in k.held[t];
        if Without(k.held[t], m) == [] {
          OnlyMember(k.held[t], m);
        }
      }
    }
  }

  lemma OnlyMember(l: seq<nat>, x: nat)
    requires Without(l, x) == [] && l != []
    ensures l == [x] || |l| == 1
  {
  }

  /** The last release ends at the remembered priority exactly when the task had that
      priority on acquiring the mutex it releases last. */
  lemma LastReleaseRestores(k: Track, t: nat, m: nat)
    requires TrackOk(k) && Runs(k.s, t) && t < |k.held| && k.held[t] == [m] && m < |k.s.mux| && k.s.mux[m].count == 1
    ensures |AfterPost(k, t, m).s.prio| == |k.s.prio|
    ensures AfterPost(k, t, m).s.prio[t] == k.base[t] <==> k.s.mux[m].saved == k.base[t]
    ensures k.first[t] == m && k.nested[t] ==> AfterPost(k, t, m).s.prio[t] == k.base[t]
  {
    assert TaskOk(k, t) && m in k.held[t] && Holds(k, t, m) && MuxOk(k.s.mux[m], |k.s.prio|);
    PostOk(k.s, t, m);
    PostMeans(k.s, t, m);
  }

  // ---------------------------------------------------------------- runs

  ghost predicate StepTo(k: Track, e: Event, k': Track) {
    TrackOk(k) && Enabled(k, e) && k' == Next(k, e)
  }

  ghost predicate IsRun(states: seq<Track>, events: seq<Event>) {
    && |states| == |events| + 1
    && TrackOk(states[0])
    && forall i | 0 <= i < |events| :: StepTo(states[i], events[i], states[i + 1])
  }

  lemma RunKeepsTrack(states: seq<Track>, events: seq<Event>, n: nat)
    requires IsRun(states, events) && n <= |events|
    ensures TrackOk(states[n])
  {
    if n > 0 {
      assert StepTo(states[n - 1], events[n - 1], states[n - 1 + 1]);
      StepOk(states[n - 1], events[n - 1]);
    }
  }

  /** Task `t` releases its last mutex only if that is the one it acquired first. */
  ghost predicate FirstIsLast(k: Track, e: Event, t: nat) {
    t < |k.held| && t < |k.nested| && e.EvPost? && e.task == t && k.held[t] == [e.m] ==> k.nested[t]
  }

  /** Over any run of mutex calls and timeouts, with whatever boosts, nested locks and
      hand-overs: a task whose first-acquired mutex is always its last released has
      its original priority whenever it holds no mutex. */
  lemma {:induction false} PriorityRestored(states: seq<Track>, events: seq<Event>, t: nat, p: nat, n: nat)
    requires IsRun(states, events) && n <= |events|
    requires t < |states[0].held| && t < |states[0].s.prio| && states[0].held[t] == [] && states[0].s.prio[t] == p
    requires forall i | 0 <= i < |events| :: FirstIsLast(states[i], events[i], t)
    ensures TrackOk(states[n]) && t < |states[n].held|
    ensures states[n].held[t] == [] ==> states[n].s.prio[t] == p
    ensures states[n].held[t] != [] ==> states[n].base[t] == p
  {
    if n > 0 {
      PriorityRestored(states, events, t, p, n - 1);
      var k, e := states[n - 1], events[n - 1];
      assert StepTo(k, e, states[n - 1 + 1]) && FirstIsLast(k, e, t);
      hide Next, Enabled;
      if k.held[t] == [] {
        OnlyHoldersChange(k, e, t);
      } else {
        HolderStep(k, e, t);
      }
    }
  }

  /** A run at both ends of which `t` holds no mutex, with different priorities. */
  ghost predicate LeavesBoosted(states: seq<Track>, events: seq<Event>, t: nat, before: nat, after: nat) {
    && IsRun(states, events)
    && (var k, z := states[0], states[|events|];
        && t < |k.held| && t < |k.s.prio| && t < |z.held| && t < |z.s.prio|
        && k.held[t] == [] && k.s.prio[t] == before && z.held[t] == [] && z.s.prio[t] == after)
  }

  /** Without that order a boost can outlive all mutexes: task 0 (priority 10) takes A,
      is boosted by task 1 (priority 5), takes B, releases A and then B, and is left at
      priority 5. */
  lemma BoostOutlives()
    ensures exists states: seq<Track>, events: seq<Event> :: LeavesBoosted(states, events, 0, 10, 5)
  {
    hide StepTo, TrackOk, Next, Enabled, IsRun;
    var k0 := ScenarioStart();
    StartOk();
    var k1 := TakeA(k0);
    var k2 := BlockOnA(k1);
    var k3 := TakeB(k2);
    var k4 := HandOverA(k3);
    var k5 := ReleaseB(k4);
    var states := [k0, k1, k2, k3, k4, k5];
    var events := [EvPend(0, 0, true, false, false), EvPend(1, 0, true, false, false), EvPend(0, 1, true, false, false), EvPost(0, 0), EvPost(0, 1)];
    FiveSteps(states, events);
    assert LeavesBoosted(states, events, 0, 10, 5);
  }

  lemma FiveSteps(states: seq<Track>, events: seq<Event>)
    requires |states| == 6 && |events| == 5 && TrackOk(states[0])
    requires StepTo(states[0], events[0], states[1]) && StepTo(states[1], events[1], states[2])
    requires StepTo(states[2], events[2], states[3]) && StepTo(states[3], events[3], states[4])
    requires StepTo(states[4], events[4], states[5])
    ensures IsRun(states, events)
  {
    hide StepTo, TrackOk;
  }

  const IDLE: Mux := Mux(true, 0, 0, 0, [])

  function ScenarioStart(): Track {
    Track(State([10, 5], [IDLE, IDLE]), [[], []], [0, 0], [false, false], [0, 0], [0, 0], [[], []], [[], []])
  }

  lemma StartOk()
    ensures TrackOk(ScenarioStart())
  {
    var k := ScenarioStart();
    assert Ok(k.s);
    forall t | 0 <= t < 2 ensures TaskOk(k, t) && HolderOk(k, t) {
      assert forall m: nat :: !Holds(k, t, m);
    }
    hide Ok, TaskOk, HolderOk;
  }

  ghost predicate Pair(k: Track) {
    TrackOk(k) && |k.s.prio| == 2 == |k.held| && |k.s.mux| == 2 == |k.lent|
  }

  lemma TakeA(k: Track) returns (k': Track)
    requires k == ScenarioStart() && TrackOk(k)
    ensures StepTo(k, EvPend(0, 0, true, false, false), k') && Pair(k')
    ensures k'.s.prio == [10, 5] && k'.held[0] == [0] && k'.lent[0] == []
    ensures k'.s.mux[0] == Mux(true, 1, 0, 10, []) && k'.s.mux[1] == IDLE
  {
    StepOk(k, EvPend(0, 0, true, false, false));
    k' := Next(k, EvPend(0, 0, true, false, false));
  }

  lemma BlockOnA(k: Track) returns (k': Track)
    requires Pair(k) && k.s.prio == [10, 5] && k.held[0] == [0]
    requires k.s.mux[0] == Mux(true, 1, 0, 10, []) && k.s.mux[1] == IDLE
    ensures StepTo(k, EvPend(1, 0, true, false, false), k') && Pair(k')
    ensures k'.s.prio[0] == 5 && k'.s.prio[1] == 5 && k'.held[0] == [0]
    ensures k'.s.mux[0].waiters == [1] && k'.s.mux[0] == Mux(true, 1, 0, 10, k'.s.mux[0].waiters) && k'.s.mux[1] == IDLE
  {
    hide TrackOk;
    StepOk(k, EvPend(1, 0, true, false, false));
    k' := Next(k, EvPend(1, 0, true, false, false));
  }

  lemma TakeB(k: Track) returns (k': Track)
    requires Pair(k) && k.s.prio[0] == 5 && k.held[0] == [0]
    requires k.s.mux[0].waiters == [1] && k.s.mux[0] == Mux(true, 1, 0, 10, k.s.mux[0].waiters) && k.s.mux[1] == IDLE
    ensures StepTo(k, EvPend(0, 1, true, false, false), k') && Pair(k')
    ensures k'.held[0] == [0, 1] && k'.s.mux[0] == k.s.mux[0] && k'.s.mux[1] == Mux(true, 1, 0, 5, [])
  {
    hide TrackOk;
    StepOk(k, EvPend(0, 1, true, false, false));
    k' := Next(k, EvPend(0, 1, true, false, false));
  }

  lemma HandOverA(k: Track) returns (k': Track)
    requires Pair(k) && k.held[0] == [0, 1] && k.s.mux[1] == Mux(true, 1, 0, 5, [])
    requires k.s.mux[0].waiters == [1] && k.s.mux[0] == Mux(true, 1, 0, 10, k.s.mux[0].waiters)
    ensures StepTo(k, EvPost(0, 0), k') && Pair(k')
    ensures k'.held[0] == [1] && k'.s.mux[0].waiters == [] && k'.s.mux[1] == Mux(true, 1, 0, 5, [])
  {
    hide TrackOk;
    StepOk(k, EvPost(0, 0));
    k' := Next(k, EvPost(0, 0));
    assert Without([0, 1], 0) == [1];
  }

  lemma ReleaseB(k: Track) returns (k': Track)
    requires Pair(k) && k.held[0] == [1] && k.s.mux[0].waiters == [] && k.s.mux[1] == Mux(true, 1, 0, 5, [])
    ensures StepTo(k, EvPost(0, 1), k') && Pair(k')
    ensures k'.held[0] == [] && k'.s.prio[0] == 5
  {
    hide TrackOk;
    StepOk(k, EvPost(0, 1));
    k' := Next(k, EvPost(0, 1));
  }
}
