/** What holds of the software timers over whole runs of calls and ticks. */
module TimerRuns {
  import opened Timers
  import opened Modular

  datatype Event =
    | EvTick(fired: seq<nat>)
    | EvStart(slot: nat, v: nat)
    | EvStop(slot: nat)
    | EvDelete(slot: nat)
    | EvCreate(interval: nat, mode: Mode, insensitive: bool)

  ghost predicate Enabled(a: Timers, e: Event) {
    && |a.cb| == LIMIT
    && match e
       case EvTick(fired) => Lists(fired, a.left, 1)
       case EvStart(s, v) =>
         s < LIMIT && !a.cb[s].state.Unused? && 0 < v <= a.cb[s].interval && (a.align ==> !Unsuited(a.cb[s]))
       case EvStop(s) => s in a.left
       case EvDelete(s) => s < LIMIT && !a.cb[s].state.Unused?
       case EvCreate(interval, _, _) => a.free != [] && 0 < interval < UINT32_RANGE
  }

  function Marked(a: Timers, s: nat): Timers
    requires s < |a.cb|
  {
    if a.align then With(a, s, Prepared(a.cb[s])) else a
  }

  function Stopped(a: Timers, s: nat): Timers
    requires s < |a.cb|
  {
    if a.cb[s].state.Ticking? then StopAt(a, s) else a
  }

  lemma MarkedOk(a: Timers, s: nat)
    requires Ok(a) && s < LIMIT && (a.align ==> !Unsuited(a.cb[s])) && !a.cb[s].state.Unused?
    ensures Ok(Marked(a, s)) && (a.align && Alignable(a.cb[s]) ==> Marked(a, s).cb[s].word.can)
  {
    if a.align {
      PreparedOk(a.cb[s]);
    }
    OneTimerStep(a, Marked(a, s), s);
  }

  lemma StoppedOk(a: Timers, s: nat)
    requires Ok(a) && s < LIMIT && !a.cb[s].state.Unused?
    ensures Ok(Stopped(a, s)) && Stopped(a, s).cb[s].state.Created?
    ensures Stopped(a, s).cb[s].word.can == a.cb[s].word.can
  {
    if a.cb[s].state.Ticking? {
      StopOk(a, s);
    }
  }

  ghost function Next(a: Timers, e: Event): (b: Timers)
    requires Ok(a) && Enabled(a, e)
    ensures Ok(b)
  {
    match e
    case EvTick(fired) => TickEffect(a, fired); Tick(a, fired)
    case EvStart(s, v) =>
      MarkedOk(a, s);
      StoppedOk(Marked(a, s), s);
      StartOk(Stopped(Marked(a, s), s), s, v);
      StartAt(Stopped(Marked(a, s), s), s, v)
    case EvStop(s) => StopOk(a, s); StopAt(a, s)
    case EvDelete(s) => StoppedOk(a, s); DeleteOk(Stopped(a, s), s); DeleteAt(Stopped(a, s), s)
    case EvCreate(interval, mode, insensitive) =>
      CreateOk(a, interval, mode, insensitive); CreateAt(a, interval, mode, insensitive)
  }

  /** Everything but the alignment word. */
  function Plain(c: Cb): Cb {
    c.(word := ZERO)
  }

  ghost predicate OthersSame(a: Timers, b: Timers, s: nat) {
    && |a.cb| == LIMIT == |b.cb| && b.align == a.align && (forall x | 0 <= x < LIMIT && x != s :: b.cb[x] == a.cb[x])
    && forall x: nat | x != s :: (x in b.left <==> x in a.left) && (x in a.left ==> b.left[x] == a.left[x])
  }

  /** What each call does to the timer it names, field by field; it touches no other. */
  lemma CallAnswers(a: Timers, e: Event)
    requires Ok(a) && Enabled(a, e) && !e.EvTick?
    ensures |a.cb| == LIMIT
    ensures var b := Next(a, e);
      match e
      case EvTick(_) => true
      case EvCreate(interval, mode, insensitive) =>
        var s := a.free[0];
        && s < LIMIT && a.cb[s].state.Unused? && OthersSame(a, b, s) && [s] + b.free == a.free && b.left == a.left
        && b.cb[s] == Cb(Created, mode, a.cb[s].id, interval, insensitive, a.cb[s].word)
      case EvStart(s, v) =>
        OthersSame(a, b, s) && b.free == a.free && s in b.left && b.left[s] == v && Plain(b.cb[s]) == Plain(a.cb[s]).(state := Ticking)
      case EvStop(s) =>
        s < LIMIT && OthersSame(a, b, s) && b.free == a.free && s !in b.left && Plain(b.cb[s]) == Plain(a.cb[s]).(state := Created)
      case EvDelete(s) =>
        OthersSame(a, b, s) && b.free == [s] + a.free && s !in b.left && b.cb[s] == Plain(a.cb[s]).(state := Unused)
  {
    match e
    case EvCreate(interval, mode, insensitive) => CreateAnswers(a, interval, mode, insensitive);
    case EvStart(s, v) => StartAnswers(a, s, v);
    case EvStop(s) => StopAnswers(a, s);
    case EvDelete(s) => DeleteAnswers(a, s);
    case EvTick(_) =>
  }

  lemma StopAnswers(a: Timers, s: nat)
    requires |a.cb| == LIMIT && s < LIMIT
    ensures var b := StopAt(a, s);
      OthersSame(a, b, s) && b.free == a.free && s !in b.left && Plain(b.cb[s]) == Plain(a.cb[s]).(state := Created)
  {
  }

  lemma DeleteAnswers(a: Timers, s: nat)
    requires |a.cb| == LIMIT && s < LIMIT && (s in a.left ==> a.cb[s].state.Ticking?)
    ensures var b := DeleteAt(Stopped(a, s), s);
      OthersSame(a, b, s) && b.free == [s] + a.free && s !in b.left && b.cb[s] == Plain(a.cb[s]).(state := Unused)
  {
  }

  lemma CreateAnswers(a: Timers, interval: nat, mode: Mode, insensitive: bool)
    requires Ok(a) && a.free != []
    ensures a.free[0] < LIMIT == |a.cb|
    ensures var s, b := a.free[0], CreateAt(a, interval, mode, insensitive);
      && s < LIMIT && a.cb[s].state.Unused? && OthersSame(a, b, s) && [s] + b.free == a.free && b.left == a.left
      && b.cb[s] == Cb(Created, mode, a.cb[s].id, interval, insensitive, a.cb[s].word)
  {
    hide CbOk, Distinct;
    assert a.free[0] in a.free;
  }

  lemma StartAnswers(a: Timers, s: nat, v: nat)
    requires |a.cb| == LIMIT && s < LIMIT
    ensures var b := StartAt(Stopped(Marked(a, s), s), s, v);
      OthersSame(a, b, s) && b.free == a.free && s in b.left && b.left[s] == v && Plain(b.cb[s]) == Plain(a.cb[s]).(state := Ticking)
  {
  }

  /** What becomes of a timer that expires: a periodic one counts its interval again; a
      one-shot goes off, and if it deletes itself its block is free and its ID is the next
      of its slot. */
  lemma ExpiryAnswers(a: Timers, fired: seq<nat>, s: nat)
    requires Ok(a) && Lists(fired, a.left, 1) && s in fired
    ensures s < LIMIT == |a.cb| && s in a.left && a.left[s] == 1
    ensures (forall x <- fired :: x < LIMIT) && |Tick(a, fired).cb| == LIMIT
    ensures var b, c := Tick(a, fired), a.cb[s];
      && (c.mode.Period? ==> s in b.left && b.left[s] == c.interval && b.cb[s] == c)
      && (!c.mode.Period? ==> s !in b.left)
      && (c.mode.NoSelfDelete? ==> b.cb[s] == c.(state := Created))
      && (c.mode.Once? ==>
            && s in b.free && b.cb[s].state.Unused? && b.cb[s].word == ZERO
            && b.cb[s].id == if c.id + LIMIT < MAX_TIMERID then c.id + LIMIT else s)
  {
    TickEffect(a, fired);
    assert CbOk(a.cb[s], s, a.align);
    hide Tick, CbOk, Distinct;
  }

  /** Timers that do not expire on a tick come one tick nearer, and their blocks stay. */
  lemma NoExpiryAnswers(a: Timers, fired: seq<nat>, s: nat)
    requires Ok(a) && Lists(fired, a.left, 1) && s < LIMIT && s !in fired
    ensures |a.cb| == LIMIT && (forall x <- fired :: x < LIMIT) && |Tick(a, fired).cb| == LIMIT
    ensures Tick(a, fired).cb[s] == a.cb[s] && (s in Tick(a, fired).left <==> s in a.left)
    ensures s in a.left ==> Tick(a, fired).left[s] == a.left[s] - 1
  {
    TickEffect(a, fired);
    hide Tick, CbOk, Distinct;
  }

  ghost predicate StepTo(a: Timers, e: Event, b: Timers) {
    Ok(a) && Enabled(a, e) && b == Next(a, e)
  }

  ghost predicate IsRun(states: seq<Timers>, events: seq<Event>) {
    && |states| == |events| + 1
    && Ok(states[0])
    && forall i | 0 <= i < |events| :: StepTo(states[i], events[i], states[i + 1])
  }

  lemma LastStep(states: seq<Timers>, events: seq<Event>)
    requires IsRun(states, events)
    ensures |states| == |events| + 1 && Ok(states[0])
    ensures var n := |events| - 1;
      n >= 0 ==> IsRun(states[..n + 1], events[..n]) && StepTo(states[n], events[n], states[n + 1])
  {
    hide Next, Ok, Enabled;
    if events != [] {
      MiddleStep(states, events, |events| - 1);
    }
  }

  lemma MiddleStep(states: seq<Timers>, events: seq<Event>, i: nat)
    requires IsRun(states, events) && i < |events|
    ensures |states| == |events| + 1 && Ok(states[0]) && IsRun(states[..i + 1], events[..i]) && StepTo(states[i], events[i], states[i + 1])
  {
    hide Next, Ok, Enabled;
    RunPrefix(states, events, i);
    assert StepTo(states[i], events[i], states[i + 1]);
  }

  lemma RunPrefix(states: seq<Timers>, events: seq<Event>, n: nat)
    requires IsRun(states, events) && n <= |events|
    ensures IsRun(states[..n + 1], events[..n])
  {
    forall i | 0 <= i < n ensures StepTo(states[..n + 1][i], events[..n][i], states[..n + 1][i + 1]) {
      assert StepTo(states[i], events[i], states[i + 1]);
    }
  }

  /** The invariant holds in every state of every run. */
  lemma RunKeepsOk(states: seq<Timers>, events: seq<Event>)
    requires IsRun(states, events)
    ensures forall i | 0 <= i < |states| :: Ok(states[i])
  {
    forall i | 0 <= i < |states| ensures Ok(states[i]) {
      if i > 0 {
        assert StepTo(states[i - 1], events[i - 1], states[i - 1 + 1]);
      }
    }
  }

  function Ticks(events: seq<Event>): nat {
    if events == [] then 0 else Ticks(events[..|events| - 1]) + if events[|events| - 1].EvTick? then 1 else 0
  }

  /** The event is a call about timer `s`. */
  predicate Touches(e: Event, s: nat) {
    (e.EvStart? || e.EvStop? || e.EvDelete?) && e.slot == s
  }

  /** No call is about timer `s`. */
  ghost predicate LeftAlone(events: seq<Event>, s: nat) {
    forall i | 0 <= i < |events| :: !Touches(events[i], s)
  }

  lemma AlonePrefix(events: seq<Event>, s: nat, n: nat)
    requires LeftAlone(events, s) && n < |events|
    ensures LeftAlone(events[..n], s) && !Touches(events[n], s)
  {
  }

  lemma LastTick(events: seq<Event>)
    ensures events == [] ==> Ticks(events) == 0
    ensures events != [] ==> Ticks(events) == Ticks(events[..|events| - 1]) + if events[|events| - 1].EvTick? then 1 else 0
  {
  }

  /** No event but the tick changes a running timer it is not about. */
  lemma Undisturbed(a: Timers, e: Event, s: nat)
    requires Ok(a) && Enabled(a, e) && !e.EvTick? && !Touches(e, s)
    ensures s in Next(a, e).left <==> s in a.left
    ensures s in a.left ==> Next(a, e).left[s] == a.left[s] && Next(a, e).cb[s] == a.cb[s]
  {
    hide WordOk, Prepared, Distinct, CbOk;
    if e.EvCreate? {
      assert a.free[0] in a.free;
    }
  }

  lemma RunningBounds(a: Timers, s: nat)
    requires Ok(a) && s in a.left
    ensures s < LIMIT == |a.cb| && 0 < a.left[s] <= a.cb[s].interval
  {
  }

  /** What one event does to a running timer that it is not about. */
  lemma RunningStep(a: Timers, e: Event, b: Timers, s: nat)
    requires StepTo(a, e, b) && s in a.left && !Touches(e, s)
    ensures s < LIMIT == |a.cb| == |b.cb| && 0 < a.left[s] <= a.cb[s].interval
    ensures e.EvTick? ==> (s in e.fired <==> a.left[s] == 1) && b.cb[s] == TickCb(a.cb[s], s in e.fired)
    ensures e.EvTick? && 1 < a.left[s] ==> s in b.left && b.left[s] == a.left[s] - 1
    ensures e.EvTick? && a.left[s] == 1 ==> (s in b.left <==> a.cb[s].mode.Period?) && (s in b.left ==> b.left[s] == a.cb[s].interval)
    ensures !e.EvTick? ==> b.cb[s] == a.cb[s] && s in b.left && b.left[s] == a.left[s]
  {
    if e.EvTick? {
      hide Tick, TickCb;
      TickEffect(a, e.fired);
    } else {
      Undisturbed(a, e, s);
    }
  }

  /** A stopped timer stays stopped unless it is started. */
  lemma IdleStep(a: Timers, e: Event, b: Timers, s: nat)
    requires StepTo(a, e, b) && s !in a.left && !Touches(e, s)
    ensures s !in b.left && |b.cb| == LIMIT
    ensures e.EvTick? ==> s !in e.fired
  {
    if e.EvTick? {
      hide Tick;
      TickEffect(a, e.fired);
    } else {
      Undisturbed(a, e, s);
    }
  }

  // ---------------------------------------------------------------- periodic timers

  /** The countdown of a periodic timer `n` ticks after it stood at `v`. */
  function Countdown(v: nat, p: nat, n: nat): int
    requires 0 < p
  {
    if n < v then v - n else p - (n - v) % p
  }

  lemma CountdownStep(v: nat, p: nat, n: nat)
    requires 0 < v <= p
    ensures Countdown(v, p, 0) == v
    ensures 0 < Countdown(v, p, n) <= p
    ensures Countdown(v, p, n + 1) == if Countdown(v, p, n) == 1 then p else Countdown(v, p, n) - 1
    ensures Countdown(v, p, n) == 1 <==> v <= n + 1 && (n + 1 - v) % p == 0
  {
    if n >= v {
      ModSuccessor(n - v, p);
    } else if n + 1 == v {
      assert (n + 1 - v) % p == 0;
    }
  }

  /** Timer `s` has control block `c` and the countdown of a periodic timer, `n` ticks
      after it stood at `v`. */
  ghost predicate CountsDown(a: Timers, s: nat, c: Cb, v: nat, n: nat) {
    && s < LIMIT == |a.cb| && a.cb[s] == c && c.mode.Period? && 0 < v <= c.interval
    && s in a.left && a.left[s] == Countdown(v, c.interval, n)
  }

  lemma PeriodicStep(a: Timers, e: Event, b: Timers, s: nat, c: Cb, v: nat, n: nat)
    requires StepTo(a, e, b) && !Touches(e, s) && CountsDown(a, s, c, v, n)
    ensures CountsDown(b, s, c, v, if e.EvTick? then n + 1 else n)
  {
    hide StepTo, Touches, Countdown;
    CountdownStep(v, c.interval, n);
    RunningStep(a, e, b, s);
  }

  /** A periodic timer that no call touches counts down, whatever happens to all the
      other timers. */
  lemma {:induction false} PeriodicRun(states: seq<Timers>, events: seq<Event>, s: nat, v: nat)
    requires IsRun(states, events) && s in states[0].left && s < LIMIT == |states[0].cb|
    requires states[0].left[s] == v && states[0].cb[s].mode.Period?
    requires LeftAlone(events, s)
    ensures |states| == |events| + 1 && CountsDown(states[|events|], s, states[0].cb[s], v, Ticks(events))
  {
    hide *;
    LastStep(states, events);
    LastTick(events);
    if events == [] {
      PeriodicStart(states[0], s, v);
    } else {
      var n := |events| - 1;
      AlonePrefix(events, s, n);
      PeriodicRun(states[..n + 1], events[..n], s, v);
      PeriodicStep(states[n], events[n], states[n + 1], s, states[0].cb[s], v, Ticks(events[..n]));
    }
  }

  lemma PeriodicStart(a: Timers, s: nat, v: nat)
    requires Ok(a) && s in a.left && s < LIMIT == |a.cb| && a.left[s] == v && a.cb[s].mode.Period?
    ensures CountsDown(a, s, a.cb[s], v, 0)
  {
    RunningBounds(a, s);
    CountdownStep(v, a.cb[s].interval, 0);
  }

  /** A periodic timer started with countdown `v` expires at the ticks v, v + p,
      v + 2p, ... after its start and at no other, until a call touches it. */
  lemma PeriodicFires(states: seq<Timers>, events: seq<Event>, s: nat, v: nat, i: nat)
    requires IsRun(states, events) && s in states[0].left && s < LIMIT == |states[0].cb|
    requires states[0].left[s] == v && states[0].cb[s].mode.Period?
    requires LeftAlone(events, s)
    requires i < |events| && events[i].EvTick?
    ensures 0 < states[0].cb[s].interval
    ensures var n := Ticks(events[..i + 1]);
      s in events[i].fired <==> v <= n && (n - v) % states[0].cb[s].interval == 0
  {
    hide *;
    MiddleStep(states, events, i);
    AlonePrefix(events, s, i);
    LastTick(events[..i + 1]);
    assert events[..i + 1][..i] == events[..i];
    PeriodicRun(states[..i + 1], events[..i], s, v);
    PeriodicFire(states[i], events[i], states[i + 1], s, states[0].cb[s], v, Ticks(events[..i]));
  }

  lemma PeriodicFire(a: Timers, e: Event, b: Timers, s: nat, c: Cb, v: nat, n: nat)
    requires StepTo(a, e, b) && !Touches(e, s) && CountsDown(a, s, c, v, n) && e.EvTick?
    ensures 0 < c.interval && (s in e.fired <==> v <= n + 1 && (n + 1 - v) % c.interval == 0)
  {
    hide StepTo, Touches, Countdown;
    CountdownStep(v, c.interval, n);
    RunningStep(a, e, b, s);
  }

  // ---------------------------------------------------------------- one-shot timers

  /** A one-shot timer (self-deleting or not) counts down once and stays off. */
  lemma {:induction false} OneShotRun(states: seq<Timers>, events: seq<Event>, s: nat, v: nat)
    requires IsRun(states, events) && s in states[0].left && s < LIMIT == |states[0].cb|
    requires states[0].left[s] == v && !states[0].cb[s].mode.Period?
    requires LeftAlone(events, s)
    ensures var n, z := Ticks(events), states[|events|];
      && |z.cb| == LIMIT
      && (n < v ==> s in z.left && z.left[s] == v - n && z.cb[s] == states[0].cb[s])
      && (v <= n ==> s !in z.left)
  {
    RunningBounds(states[0], s);
    LastStep(states, events);
    LastTick(events);
    if events != [] {
      var n := |events| - 1;
      AlonePrefix(events, s, n);
      hide IsRun, StepTo, Touches, LeftAlone, Ticks, Ok;
      OneShotRun(states[..n + 1], events[..n], s, v);
      if Ticks(events[..n]) < v {
        RunningStep(states[n], events[n], states[n + 1], s);
      } else {
        IdleStep(states[n], events[n], states[n + 1], s);
      }
    }
  }

  /** It expires at exactly one tick: the `v`-th after its start. */
  lemma OneShotFires(states: seq<Timers>, events: seq<Event>, s: nat, v: nat, i: nat)
    requires IsRun(states, events) && s in states[0].left && s < LIMIT == |states[0].cb|
    requires states[0].left[s] == v && !states[0].cb[s].mode.Period?
    requires LeftAlone(events, s)
    requires i < |events| && events[i].EvTick?
    ensures s in events[i].fired <==> Ticks(events[..i + 1]) == v
  {
    MiddleStep(states, events, i);
    AlonePrefix(events, s, i);
    LastTick(events[..i + 1]);
    assert events[..i + 1][..i] == events[..i];
    hide IsRun, StepTo, Touches, LeftAlone, Ticks, Ok;
    OneShotRun(states[..i + 1], events[..i], s, v);
    if Ticks(events[..i]) < v {
      RunningStep(states[i], events[i], states[i + 1], s);
    } else {
      IdleStep(states[i], events[i], states[i + 1], s);
    }
    assert events[..i + 1][..i] == events[..i];
  }

  // ---------------------------------------------------------------- timer IDs

  /** The ID after `n` expiries of one-shot timers in the same control block. */
  function BumpN(id: nat, n: nat): nat {
    if n == 0 then id else Bump(BumpN(id, n - 1))
  }

  /** IDs run through all `MAX_TIMERID / LIMIT` IDs of the control block in turn. */
  lemma {:induction false} BumpNClosed(id: nat, s: nat, n: nat)
    requires id < MAX_TIMERID && id % LIMIT == s
    ensures BumpN(id, n) == s + LIMIT * ((id / LIMIT + n) % (MAX_TIMERID / LIMIT))
  {
    if n > 0 {
      BumpNClosed(id, s, n - 1);
      ModSuccessor(id / LIMIT + n - 1, MAX_TIMERID / LIMIT);
    }
  }

  /** An ID comes back only after all other IDs of its control block. */
  lemma BumpNReturns(id: nat, s: nat, n: nat)
    requires id < MAX_TIMERID && id % LIMIT == s
    ensures BumpN(id, n) == id <==> n % (MAX_TIMERID / LIMIT) == 0
  {
    var k, j, r := MAX_TIMERID / LIMIT, id / LIMIT, n % (MAX_TIMERID / LIMIT);
    BumpNClosed(id, s, n);
    BumpNClosed(id, s, 0);
    ModShift(j + n, j + r, k, n / k);
    if j + r < k {
      ModUnique(j + r, k, 0, j + r);
    } else {
      ModUnique(j + r, k, 1, j + r - k);
    }
    ModUnique(j, k, 0, j);
  }

  /** How often a one-shot timer in control block `s` expires in a run. */
  ghost function Expiries(states: seq<Timers>, events: seq<Event>, s: nat): nat
    requires IsRun(states, events) && s < LIMIT
    decreases |events|
  {
    if events == [] then 0
    else
      var n := |events| - 1;
      RunPrefix(states, events, n);
      assert StepTo(states[n], events[n], states[n + 1]);
      var e := events[n];
      Expiries(states[..n + 1], events[..n], s)
        + if e.EvTick? && s in e.fired && states[n].cb[s].mode.Once? then 1 else 0
  }

  /** Nothing but the expiry of a one-shot timer changes an ID. */
  lemma IdStep(a: Timers, e: Event, b: Timers, s: nat)
    requires StepTo(a, e, b) && s < LIMIT
    ensures |a.cb| == LIMIT == |b.cb|
    ensures b.cb[s].id == if e.EvTick? && s in e.fired && a.cb[s].mode.Once? then Bump(a.cb[s].id) else a.cb[s].id
  {
    if e.EvTick? {
      hide Tick;
      TickEffect(a, e.fired);
    }
  }

  /** The handle of a one-shot timer is rejected by CHECK_SWTMRID after it has expired,
      until its control block has seen a full cycle of expiries. */
  lemma {:induction false} HandleAfter(states: seq<Timers>, events: seq<Event>, s: nat)
    requires IsRun(states, events) && s < LIMIT == |states[0].cb|
    ensures var z := states[|events|];
      |z.cb| == LIMIT && z.cb[s].id == BumpN(states[0].cb[s].id, Expiries(states, events, s))
  {
    hide *;
    if events != [] {
      var n := |events| - 1;
      LastStep(states, events);
      LastExpiry(states, events, s);
      HandleAfter(states[..n + 1], events[..n], s);
      IdStep(states[n], events[n], states[n + 1], s);
      BumpNNext(states[0].cb[s].id, Expiries(states[..n + 1], events[..n], s));
    } else {
      NoExpiry(states, events, s);
      BumpNNext(states[0].cb[s].id, 0);
    }
  }

  lemma NoExpiry(states: seq<Timers>, events: seq<Event>, s: nat)
    requires IsRun(states, events) && s < LIMIT && events == []
    ensures Expiries(states, events, s) == 0 && |states| == 1
  {
    hide Ok;
  }

  lemma BumpNNext(id: nat, n: nat)
    ensures BumpN(id, 0) == id && BumpN(id, n + 1) == Bump(BumpN(id, n))
  {
  }

  lemma LastExpiry(states: seq<Timers>, events: seq<Event>, s: nat)
    requires IsRun(states, events) && s < LIMIT && events != []
    ensures var n := |events| - 1;
      && IsRun(states[..n + 1], events[..n]) && StepTo(states[n], events[n], states[n + 1]) && |states| == n + 2 && |states[n].cb| == LIMIT
      && Expiries(states, events, s) == Expiries(states[..n + 1], events[..n], s)
           + if events[n].EvTick? && s in events[n].fired && states[n].cb[s].mode.Once? then 1 else 0
  {
    hide Next, Enabled;
    var n := |events| - 1;
    RunPrefix(states, events, n);
    assert StepTo(states[n], events[n], states[n + 1]);
  }

  lemma HandleAccepted(states: seq<Timers>, events: seq<Event>, s: nat)
    requires IsRun(states, events) && s < LIMIT == |states[0].cb|
    ensures var z := states[|events|];
      && |z.cb| == LIMIT
      && (z.cb[s].id == states[0].cb[s].id <==> Expiries(states, events, s) % (MAX_TIMERID / LIMIT) == 0)
  {
    HandleAfter(states, events, s);
    assert CbOk(states[0].cb[s], s, states[0].align);
    BumpNReturns(states[0].cb[s].id, s, Expiries(states, events, s));
  }

  // ---------------------------------------------------------------- aligned timers

  /** Timers `s` and `l` are in step: every expiry of `l`, whose interval is a
      multiple, falls on one of `s`. */
  ghost predicate InStep(a: Timers, s: nat, l: nat) {
    && s in a.left && l in a.left && s < |a.cb| && l < |a.cb|
    && a.cb[s].mode.Period? && a.cb[l].mode.Period?
    && 0 < a.cb[s].interval && a.cb[l].interval % a.cb[s].interval == 0
    && a.left[s] % a.cb[s].interval == a.left[l] % a.cb[s].interval
  }

  lemma CongruentDown(x: int, y: int, m: int)
    requires 0 < m && x % m == y % m
    ensures (x - 1) % m == (y - 1) % m
  {
    ModShift(x - 1, y - 1, m, x / m - y / m);
  }

  /** One tick on two countdowns that start over at `m` and at a multiple of `m`. */
  lemma InStepNumbers(x: int, y: int, m: int, p: int)
    requires 0 < x <= m && 0 < y && p % m == 0 && x % m == y % m
    ensures (if x == 1 then m else x - 1) % m == (if y == 1 then p else y - 1) % m
    ensures y == 1 ==> x == 1
  {
    ModUnique(m, m, 1, 0);
    CongruentDown(x, y, m);
    ModUnique(0, m, 0, 0);
    if x < m {
      ModUnique(x, m, 0, x);
    }
    if 1 < m {
      ModUnique(1, m, 0, 1);
    }
  }

  lemma InStepKept(a: Timers, e: Event, b: Timers, s: nat, l: nat)
    requires StepTo(a, e, b) && InStep(a, s, l) && !Touches(e, s) && !Touches(e, l)
    ensures InStep(b, s, l)
    ensures e.EvTick? && l in e.fired ==> s in e.fired
  {
    hide Next, Ok, Enabled;
    RunningStep(a, e, b, s);
    RunningStep(a, e, b, l);
    InStepNumbers(a.left[s], a.left[l], a.cb[s].interval, a.cb[l].interval);
  }

  /** Timers in step stay in step until a call touches one of them. */
  lemma {:induction false} InStepRun(states: seq<Timers>, events: seq<Event>, s: nat, l: nat)
    requires IsRun(states, events) && InStep(states[0], s, l)
    requires LeftAlone(events, s) && LeftAlone(events, l)
    ensures InStep(states[|events|], s, l)
  {
    if events != [] {
      var n := |events| - 1;
      LastStep(states, events);
      AlonePrefix(events, s, n);
      AlonePrefix(events, l, n);
      hide IsRun, StepTo, Touches, LeftAlone, InStep;
      InStepRun(states[..n + 1], events[..n], s, l);
      InStepKept(states[n], events[n], states[n + 1], s, l);
    }
  }

  /** So every expiry of the longer one coincides with one of the shorter. */
  lemma ExpiriesCoincide(states: seq<Timers>, events: seq<Event>, s: nat, l: nat, i: nat)
    requires IsRun(states, events) && InStep(states[0], s, l)
    requires LeftAlone(events, s) && LeftAlone(events, l)
    requires i < |events| && events[i].EvTick? && l in events[i].fired
    ensures s in events[i].fired
  {
    MiddleStep(states, events, i);
    AlonePrefix(events, s, i);
    AlonePrefix(events, l, i);
    hide IsRun, StepTo, Touches, LeftAlone, InStep;
    InStepRun(states[..i + 1], events[..i], s, l);
    InStepKept(states[i], events[i], states[i + 1], s, l);
  }
}
