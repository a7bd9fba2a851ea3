/** Software timers as a countdown per running timer: what los_swtmr.c promises,
    without its list.  `left[s]` is the number of ticks until the timer in control
    block `s` expires. */
module Timers {

  const LIMIT: nat := 16
  const MAX_TIMERID: nat := 65520          // (65535 / LIMIT) * LIMIT
  const COMMON_DIVISOR: nat := 10
  const DIVISOR_RANGE: nat := 0x100_0000   // the divisor has 24 bits
  const UINT32_RANGE: nat := 0x1_0000_0000

  datatype Mode = Once | Period | NoSelfDelete

  datatype TimerState = Unused | Created | Ticking

  /** One word of m_uwSwTmrAlignID: bits 31, 30, 29 and 23..0. */
  datatype Word = Word(already: bool, can: bool, multiple: bool, divisor: nat)

  const ZERO: Word := Word(false, false, false, 0)

  datatype Cb = Cb(state: TimerState, mode: Mode, id: nat, interval: nat, insensitive: bool, word: Word)

  /** `align` is the build option LOSCFG_BASE_CORE_SWTMR_ALIGN. */
  datatype Timers = Timers(align: bool, cb: seq<Cb>, left: map<nat, nat>, free: seq<nat>)

  // ---------------------------------------------------------------- invariant

  /** The alignment word tells the truth about its timer. */
  ghost predicate WordOk(c: Cb) {
    && (c.word.already ==> c.word.can && c.state.Ticking?)
    && (c.word.can ==> c.mode.Period? && c.insensitive && !c.state.Unused?)
    && (c.word.can ==> (c.word.multiple <==> c.interval % COMMON_DIVISOR == 0))
    && (c.word.multiple ==> c.word.can && c.word.divisor == c.interval / COMMON_DIVISOR && c.word.divisor < DIVISOR_RANGE)
    && (!c.word.multiple ==> c.word.divisor == 0)
    && (c.state.Ticking? && c.word.can ==> c.word.already)
  }

  predicate Alignable(c: Cb) {
    c.insensitive && c.mode.Period?
  }

  ghost predicate CbOk(c: Cb, s: nat, align: bool) {
    && (!c.state.Unused? ==> 0 < c.interval < UINT32_RANGE)
    && c.id < MAX_TIMERID && c.id % LIMIT == s
    && WordOk(c)
    && (align && Alignable(c) && c.state.Ticking? ==> c.word.already)
    && (!align ==> c.word == ZERO)
  }

  ghost predicate Distinct(l: seq<nat>) {
    forall i, j | 0 <= i < j < |l| :: l[i] != l[j]
  }

  /** The invariant except that countdowns may have reached zero. */
  ghost predicate Base(a: Timers) {
    && |a.cb| == LIMIT
    && (forall s | 0 <= s < LIMIT :: CbOk(a.cb[s], s, a.align))
    && (forall s: nat :: s in a.left <==> s < LIMIT && a.cb[s].state.Ticking?)
    && (forall s <- a.left :: a.left[s] <= a.cb[s].interval)
    && Distinct(a.free)
    && (forall s: nat :: s in a.free <==> s < LIMIT && a.cb[s].state.Unused?)
  }

  /** Control blocks are conserved: each is in the free list, idle, or counting down,
      as its state says; a running timer has between 1 and `interval` ticks left. */
  ghost predicate Ok(a: Timers) {
    Base(a) && forall s <- a.left :: 0 < a.left[s]
  }

  // ---------------------------------------------------------------- single operations

  /** The ID a control block gets when its one-shot timer has expired. */
  function Bump(id: nat): nat {
    if id < MAX_TIMERID - LIMIT then id + LIMIT else id % LIMIT
  }

  function With(a: Timers, s: nat, c: Cb): Timers
    requires s < |a.cb|
  {
    a.(cb := a.cb[s := c])
  }

  /** osSwtmrDelete. */
  function DeleteAt(a: Timers, s: nat): Timers
    requires s < |a.cb|
  {
    With(a, s, a.cb[s].(state := Unused, word := ZERO)).(free := [s] + a.free)
  }

  /** osSwtmrStop. */
  function StopAt(a: Timers, s: nat): Timers
    requires s < |a.cb|
  {
    With(a, s, a.cb[s].(state := Created, word := a.cb[s].word.(already := false))).(left := a.left - {s})
  }

  /** osSwTmrStart, given the countdown `v` it settles on. */
  function StartAt(a: Timers, s: nat, v: nat): Timers
    requires s < |a.cb|
  {
    With(a, s, a.cb[s].(state := Ticking, word := a.cb[s].word.(already := a.cb[s].word.can))).(left := a.left[s := v])
  }

  /** LOS_SwtmrCreate on the first free control block. */
  function CreateAt(a: Timers, interval: nat, mode: Mode, insensitive: bool): Timers
    requires a.free != [] && a.free[0] < |a.cb|
  {
    var s := a.free[0];
    With(a, s, a.cb[s].(state := Created, mode := mode, interval := interval, insensitive := insensitive)).(free := a.free[1..])
  }

  lemma OneTimerStep(a: Timers, b: Timers, s: nat)
    requires Base(a) && s < LIMIT && |b.cb| == LIMIT && b.align == a.align
    requires forall x | 0 <= x < LIMIT && x != s :: b.cb[x] == a.cb[x]
    requires forall x: nat | x != s :: (x in b.left <==> x in a.left) && (x in a.left ==> b.left[x] == a.left[x])
    requires CbOk(b.cb[s], s, b.align) && (s in b.left <==> b.cb[s].state.Ticking?) && (s in b.left ==> b.left[s] <= b.cb[s].interval)
    requires Distinct(b.free) && (s in b.free <==> b.cb[s].state.Unused?)
    requires forall x: nat | x != s :: x in b.free <==> x in a.free
    ensures Base(b)
  {
  }

  lemma DeleteOk(a: Timers, s: nat)
    requires Ok(a) && s < LIMIT && a.cb[s].state.Created?
    ensures Ok(DeleteAt(a, s))
  {
    OneTimerStep(a, DeleteAt(a, s), s);
  }

  lemma StopOk(a: Timers, s: nat)
    requires Ok(a) && s in a.left
    ensures Ok(StopAt(a, s)) && StopAt(a, s).cb[s].state.Created?
  {
    OneTimerStep(a, StopAt(a, s), s);
  }

  lemma StartOk(a: Timers, s: nat, v: nat)
    requires Ok(a) && s < LIMIT && a.cb[s].state.Created? && 0 < v <= a.cb[s].interval
    requires a.align && Alignable(a.cb[s]) ==> a.cb[s].word.can
    ensures Ok(StartAt(a, s, v))
  {
    OneTimerStep(a, StartAt(a, s, v), s);
  }

  lemma CreateOk(a: Timers, interval: nat, mode: Mode, insensitive: bool)
    requires Ok(a) && a.free != [] && 0 < interval < UINT32_RANGE
    ensures a.free[0] < LIMIT && Ok(CreateAt(a, interval, mode, insensitive))
  {
    var s := a.free[0];
    assert s in a.free && a.free == [s] + a.free[1..];
    OneTimerStep(a, CreateAt(a, interval, mode, insensitive), s);
  }

  // ---------------------------------------------------------------- the tick

  /** What osSwTmrTimeoutHandle does with one expired timer. */
  function FireOne(a: Timers, s: nat): Timers
    requires s < |a.cb|
  {
    var c := a.cb[s];
    match c.mode
    case Once => With(a, s, c.(state := Unused, id := Bump(c.id), word := ZERO)).(left := a.left - {s}, free := [s] + a.free)
    case Period => a.(left := a.left[s := c.interval])
    case NoSelfDelete => With(a, s, c.(state := Created)).(left := a.left - {s})
  }

  function Decrement(left: map<nat, nat>): map<nat, nat> {
    map s | s in left :: if left[s] > 0 then left[s] - 1 else 0
  }

  /** `fired` lists, once each, the timers whose countdown is at `v`. */
  ghost predicate Lists(fired: seq<nat>, left: map<nat, nat>, v: nat) {
    Distinct(fired) && forall s :: s in fired <==> s in left && left[s] == v
  }

  ghost function FireAll(a: Timers, fired: seq<nat>): Timers
    requires forall s <- fired :: s < |a.cb|
    decreases |fired|
  {
    if fired == [] then a
    else
      assert fired[0] in fired && forall x <- fired[1..] :: x in fired;
      FireAll(FireOne(a, fired[0]), fired[1..])
  }

  /** osSwtmrScan: every countdown drops by one, the timers that reach zero fire. */
  ghost function Tick(a: Timers, fired: seq<nat>): Timers
    requires forall s <- fired :: s < |a.cb|
  {
    FireAll(a.(left := Decrement(a.left)), fired)
  }

  /** The countdowns after a tick: a periodic timer that fires starts over. */
  function TickLeft(a: Timers): map<nat, nat> {
    map s | s in a.left && s < |a.cb| && (a.left[s] != 1 || a.cb[s].mode.Period?) ::
      if a.left[s] > 1 then a.left[s] - 1 else a.cb[s].interval
  }

  /** The control blocks after a tick. */
  function TickCb(c: Cb, fires: bool): Cb {
    if !fires then c
    else match c.mode
      case Once => c.(state := Unused, id := Bump(c.id), word := ZERO)
      case Period => c
      case NoSelfDelete => c.(state := Created)
  }

  lemma BumpOk(id: nat, s: nat)
    requires id < MAX_TIMERID && id % LIMIT == s
    ensures Bump(id) < MAX_TIMERID && Bump(id) % LIMIT == s
  {
  }

  lemma FireOneOk(a: Timers, s: nat)
    requires Base(a) && s in a.left
    ensures Base(FireOne(a, s))
  {
    BumpOk(a.cb[s].id, s);
    OneTimerStep(a, FireOne(a, s), s);
  }

  /** Timers in `fired` have been fired once, all others are as before. */
  ghost predicate Fired(a: Timers, b: Timers, fired: seq<nat>)
    requires |a.cb| == LIMIT == |b.cb|
  {
    && (forall s | 0 <= s < LIMIT :: b.cb[s] == TickCb(a.cb[s], s in fired))
    && (forall s: nat | s < LIMIT && s !in fired :: (s in b.left <==> s in a.left) && (s in a.left ==> b.left[s] == a.left[s]))
    && (forall s: nat | s < LIMIT && s in fired :: s in b.left <==> a.cb[s].mode.Period?)
    && (forall s: nat | s < LIMIT && s in fired && s in b.left :: b.left[s] == a.cb[s].interval)
  }

  lemma FiredCons(a: Timers, b: Timers, s: nat, rest: seq<nat>)
    requires |a.cb| == LIMIT == |b.cb| && s < LIMIT && s !in rest && s in a.left
    requires Fired(FireOne(a, s), b, rest)
    ensures Fired(a, b, [s] + rest)
  {
    var a1 := FireOne(a, s);
    forall x: nat | x < LIMIT
      ensures b.cb[x] == TickCb(a.cb[x], x in [s] + rest)
      ensures x !in [s] + rest ==> (x in b.left <==> x in a.left) && (x in a.left ==> b.left[x] == a.left[x])
      ensures x in [s] + rest ==> (x in b.left <==> a.cb[x].mode.Period?) && (x in b.left ==> b.left[x] == a.cb[x].interval)
    {
      assert x in [s] + rest <==> x == s || x in rest;
      assert b.cb[x] == TickCb(a1.cb[x], x in rest);
    }
  }

  lemma {:induction false} FireAllEffect(a: Timers, fired: seq<nat>)
    requires Base(a) && Distinct(fired) && forall s <- fired :: s in a.left
    ensures Base(FireAll(a, fired)) && Fired(a, FireAll(a, fired), fired)
    decreases |fired|
  {
    if fired != [] {
      hide FireOne, Fired;
      var s := fired[0];
      assert s in fired && s in a.left;
      FireOneOk(a, s);
      var a1 := FireOne(a, s);
      forall x <- fired[1..] ensures x != s && x in a1.left {
        assert x in fired;
        FireOneLeft(a, s, x);
      }
      FireAllEffect(a1, fired[1..]);
      FiredCons(a, FireAll(a1, fired[1..]), s, fired[1..]);
      assert fired == [s] + fired[1..];
    }
  }

  lemma FireOneLeft(a: Timers, s: nat, x: nat)
    requires Base(a) && s in a.left && x in a.left && x != s
    ensures x in FireOne(a, s).left
  {
  }

  /** The tick keeps the invariant and does exactly what it should to every timer. */
  lemma TickEffect(a: Timers, fired: seq<nat>)
    requires Ok(a) && Lists(fired, a.left, 1)
    ensures var b := Tick(a, fired);
      && Ok(b) && b.left == TickLeft(a)
      && forall s | 0 <= s < LIMIT :: b.cb[s] == TickCb(a.cb[s], s in fired)
  {
    var d := a.(left := Decrement(a.left));
    assert Base(d);
    FireAllEffect(d, fired);
    hide FireAll, CbOk, Distinct, TickLeft;
    LeftAfter(a, d, FireAll(d, fired), fired);
  }

  lemma LeftAfter(a: Timers, d: Timers, b: Timers, fired: seq<nat>)
    requires Ok(a) && d == a.(left := Decrement(a.left)) && Base(b) && Fired(d, b, fired)
    requires forall s :: s in fired <==> s in a.left && a.left[s] == 1
    ensures b.left == TickLeft(a) && Ok(b)
  {
    hide CbOk, Distinct;
    forall s: nat
      ensures s in b.left <==> s in TickLeft(a)
      ensures s in b.left ==> b.left[s] == TickLeft(a)[s]
    {
    }
    forall s <- b.left ensures 0 < b.left[s] {
      assert CbOk(a.cb[s], s, a.align);
      Interval(a.cb[s], s, a.align);
    }
  }

  lemma Interval(c: Cb, s: nat, align: bool)
    requires CbOk(c, s, align) && !c.state.Unused?
    ensures 0 < c.interval < UINT32_RANGE
  {
  }

  // ---------------------------------------------------------------- LOS_SwtmrStart

  /** What LOS_SwtmrStart writes into the alignment word, before it looks at the state
      of the timer: 24 bits are kept of the interval divided by ten. */
  function Prepared(c: Cb): Cb {
    if Alignable(c) then
      var w := c.word.(can := true);
      c.(word := if c.interval % COMMON_DIVISOR == 0
                 then w.(multiple := true, divisor := c.interval / COMMON_DIVISOR % DIVISOR_RANGE)
                 else w)
    else c
  }

  /** The timer has been deleted, or its interval does not fit the 24-bit divisor. */
  predicate Unsuited(c: Cb) {
    Alignable(c) && (c.state.Unused? || (c.interval % COMMON_DIVISOR == 0 && c.interval / COMMON_DIVISOR >= DIVISOR_RANGE))
  }

  /** The word still tells the truth afterwards exactly when the timer is suited. */
  lemma PreparedOk(c: Cb)
    requires WordOk(c) && c.interval < UINT32_RANGE && (Alignable(c) && c.state.Ticking? ==> c.word.already)
    ensures WordOk(Prepared(c)) <==> !Unsuited(c)
  {
    if c.interval % COMMON_DIVISOR == 0 && c.interval / COMMON_DIVISOR >= DIVISOR_RANGE {
      assert Prepared(c).word.divisor == c.interval / COMMON_DIVISOR % DIVISOR_RANGE || Prepared(c) == c;
    }
  }
}
