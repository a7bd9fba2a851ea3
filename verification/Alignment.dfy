/** Which running timer a newly started one is aligned with, and the countdown it
    then starts with (the LOSCFG_BASE_CORE_SWTMR_ALIGN part of osSwTmrStart). */
module Alignment {
  import opened Timers
  import opened TimerRuns
  import opened Modular

  datatype Choice = NoPartner | Larger(p: nat) | Smaller(p: nat) | SameInterval(p: nat)

  /** The checks CHECK_ALIGN_SWTMR_CAN_MULTI_ALIGN and _CAN_PERIODIC_ALIGN together. */
  predicate Searches(c: Cb) {
    c.word.can && !c.word.already
  }

  /** CHECK_ALIGN_SWTMR_ALREADY_ALIGN. */
  predicate Started(c: Cb) {
    c.word.can && c.word.already
  }

  function Divisor(a: Timers, s: nat): nat
    requires s < |a.cb|
  {
    a.cb[s].word.divisor
  }

  predicate IsLarger(a: Timers, s: nat, i: nat)
    requires s < |a.cb| && i < |a.cb|
  {
    && Divisor(a, i) != 0 && i != s && Started(a.cb[i])
    && Divisor(a, s) != 0 && Divisor(a, s) <= Divisor(a, i) && Divisor(a, i) % Divisor(a, s) == 0
  }

  predicate IsSmaller(a: Timers, s: nat, i: nat)
    requires s < |a.cb| && i < |a.cb|
  {
    && Divisor(a, i) != 0 && i != s && Started(a.cb[i])
    && Divisor(a, i) < Divisor(a, s) && Divisor(a, s) % Divisor(a, i) == 0
  }

  predicate IsSame(a: Timers, s: nat, i: nat)
    requires s < |a.cb| && i < |a.cb|
  {
    i in a.left && a.cb[i].interval == a.cb[s].interval && Started(a.cb[i])
  }

  /** A timer whose interval is a multiple of ten joins the running timer with the
      smallest multiple of its interval, else the one with the largest proper divisor;
      any other alignable timer joins one with the same interval. */
  ghost predicate ChoiceOk(a: Timers, s: nat, choice: Choice)
    requires s < |a.cb|
  {
    var n := |a.cb|;
    if !Searches(a.cb[s]) then choice == NoPartner
    else if a.cb[s].word.multiple then
      match choice
      case NoPartner => forall i | 0 <= i < n :: !IsLarger(a, s, i) && !IsSmaller(a, s, i)
      case Larger(p) => p < n && IsLarger(a, s, p)
        && forall i | 0 <= i < n && IsLarger(a, s, i) :: Divisor(a, p) / Divisor(a, s) <= Divisor(a, i) / Divisor(a, s)
      case Smaller(p) => p < n && IsSmaller(a, s, p)
        && (forall i | 0 <= i < n :: !IsLarger(a, s, i))
        && forall i | 0 <= i < n && IsSmaller(a, s, i) :: Divisor(a, s) / Divisor(a, p) <= Divisor(a, s) / Divisor(a, i)
      case SameInterval(p) => false
    else
      match choice
      case NoPartner => forall i | 0 <= i < n :: !IsSame(a, s, i)
      case SameInterval(p) => p < n && IsSame(a, s, p)
      case _ => false
  }

  // ---------------------------------------------------------------- the choice in terms of intervals

  /** Timer `i` is a running alignable one other than `s`. */
  predicate Running(a: Timers, s: nat, i: nat) {
    i < |a.cb| && i != s && a.cb[i].state.Ticking? && a.cb[i].insensitive && a.cb[i].mode.Period?
  }

  /** Its interval is a multiple of ten ticks, as that of `s`, and a multiple of that of `s`. */
  predicate MultipleOf(a: Timers, s: nat, i: nat)
    requires s < |a.cb| && 0 < a.cb[s].interval
  {
    Running(a, s, i) && a.cb[i].interval % 10 == 0 && a.cb[i].interval % a.cb[s].interval == 0
  }

  /** ... or a proper divisor of it. */
  predicate DivisorOf(a: Timers, s: nat, i: nat)
    requires s < |a.cb|
  {
    && Running(a, s, i) && a.cb[i].interval % 10 == 0
    && 0 < a.cb[i].interval < a.cb[s].interval && a.cb[s].interval % a.cb[i].interval == 0
  }

  lemma TenFold(d: nat, e: nat)
    requires 0 < d
    ensures e % d == 0 <==> (10 * e) % (10 * d) == 0
    ensures d <= e <==> 10 * d <= 10 * e
  {
    var q, r := e / d, e % d;
    assert e == q * d + r;
    assert 10 * e == q * (10 * d) + 10 * r;
    ModUnique(10 * e, 10 * d, q, 10 * r);
  }

  lemma AtLeastOnce(d: nat, e: nat)
    requires 0 < d && 0 < e && e % d == 0
    ensures d <= e
  {
    if e < d {
      ModUnique(e, d, 0, e);
    }
  }

  /** Of multiples (or divisors) of a number the quotients are ordered as they are. */
  lemma Quotients(d: nat, e: nat, f: nat)
    requires 0 < d && 0 < e && 0 < f
    ensures e % d == 0 && f % d == 0 && e / d <= f / d ==> e <= f
    ensures d % e == 0 && d % f == 0 && d / e <= d / f ==> f <= e
  {
    if e % d == 0 && f % d == 0 && e / d <= f / d {
      MulOrder(e / d, f / d, d);
    }
    if d % e == 0 && d % f == 0 && d / e <= d / f {
      LargerFactor(d, e, f, d / e, d / f);
    }
  }

  lemma LargerFactor(d: nat, e: nat, f: nat, k: nat, m: nat)
    requires d == k * e && d == m * f && k <= m && 0 < d
    ensures f <= e
  {
    if e < f {
      MulOrder(k, m, e);
      assert m * f == m * e + m * (f - e);
      MulAtLeast(f - e, m);
    }
  }

  lemma MulOrder(x: nat, y: nat, m: nat)
    requires x <= y
    ensures x * m <= y * m
  {
    assert y * m == x * m + (y - x) * m;
  }

  /** A timer counts as running and alignable by its word exactly if it is. */
  lemma WordTells(a: Timers, s: nat, i: nat)
    requires Ok(a) && a.align && i < LIMIT && i != s
    ensures Started(a.cb[i]) <==> Running(a, s, i)
    ensures Running(a, s, i) ==> 0 < a.cb[i].interval && (a.cb[i].interval % 10 == 0 <==> Divisor(a, i) != 0)
    ensures Running(a, s, i) && Divisor(a, i) != 0 ==> a.cb[i].interval == 10 * Divisor(a, i)
  {
    assert CbOk(a.cb[i], i, a.align);
  }

  lemma CandidatesAre(a: Timers, s: nat, i: nat)
    requires Ok(a) && a.align && s < LIMIT && i < LIMIT && a.cb[s].word.multiple && !a.cb[s].state.Unused?
    ensures 0 < a.cb[s].interval && a.cb[s].interval == 10 * Divisor(a, s)
    ensures IsLarger(a, s, i) <==> MultipleOf(a, s, i)
    ensures IsSmaller(a, s, i) <==> DivisorOf(a, s, i)
  {
    assert CbOk(a.cb[s], s, a.align);
    if i != s {
      WordTells(a, s, i);
      if Running(a, s, i) && Divisor(a, i) != 0 {
        TenFold(Divisor(a, s), Divisor(a, i));
        TenFold(Divisor(a, i), Divisor(a, s));
        if Divisor(a, i) % Divisor(a, s) == 0 {
          AtLeastOnce(Divisor(a, s), Divisor(a, i));
        }
      }
    }
  }

  /** The partner of an alignable timer, in terms of intervals: one whose interval is a
      multiple of ten joins the running alignable timer with the shortest multiple of it
      if there is one, else the one with the longest proper divisor if there is one. */
  lemma ChoiceMeans(a: Timers, s: nat, choice: Choice)
    requires Ok(a) && a.align && s < LIMIT && a.cb[s].state.Created? && Alignable(a.cb[s]) && a.cb[s].word.can && ChoiceOk(a, s, choice)
    requires 0 < a.cb[s].interval && a.cb[s].interval % 10 == 0
    ensures !choice.SameInterval?
    ensures choice.Larger? ==>
              MultipleOf(a, s, choice.p) && forall i: nat | MultipleOf(a, s, i) :: a.cb[choice.p].interval <= a.cb[i].interval
    ensures choice.Smaller? ==>
              && DivisorOf(a, s, choice.p) && (forall i: nat | DivisorOf(a, s, i) :: a.cb[i].interval <= a.cb[choice.p].interval)
              && (forall i: nat :: !MultipleOf(a, s, i))
    ensures choice.NoPartner? ==> forall i: nat :: !MultipleOf(a, s, i) && !DivisorOf(a, s, i)
  {
    MultipleOfTen(a, s);
    Blocks(a, s);
    hide Ok, IsLarger, IsSmaller, MultipleOf, DivisorOf;
    if choice.Larger? {
      forall i: nat | MultipleOf(a, s, i) ensures a.cb[choice.p].interval <= a.cb[i].interval {
        LargerOrder(a, s, choice.p, i);
      }
    } else if choice.Smaller? {
      forall i: nat | DivisorOf(a, s, i) ensures a.cb[i].interval <= a.cb[choice.p].interval {
        SmallerOrder(a, s, choice.p, i);
      }
    }
  }

  /** Any other alignable timer joins one of the same interval if there is one. */
  lemma ChoiceElse(a: Timers, s: nat, choice: Choice)
    requires Ok(a) && a.align && s < LIMIT && a.cb[s].state.Created? && Alignable(a.cb[s]) && a.cb[s].word.can && ChoiceOk(a, s, choice)
    requires 0 < a.cb[s].interval && a.cb[s].interval % 10 != 0
    ensures choice.SameInterval? || choice.NoPartner?
    ensures choice.SameInterval? ==> Running(a, s, choice.p) && a.cb[choice.p].interval == a.cb[s].interval
    ensures choice.NoPartner? ==> forall i: nat :: !(Running(a, s, i) && a.cb[i].interval == a.cb[s].interval)
  {
    MultipleOfTen(a, s);
    forall i | 0 <= i < LIMIT ensures IsSame(a, s, i) <==> Running(a, s, i) && a.cb[i].interval == a.cb[s].interval {
      SameIs(a, s, i);
    }
    hide Ok, IsSame;
  }

  lemma MultipleOfTen(a: Timers, s: nat)
    requires Ok(a) && s < LIMIT && a.cb[s].state.Created? && a.cb[s].word.can
    ensures |a.cb| == LIMIT && Searches(a.cb[s]) && (a.cb[s].word.multiple <==> a.cb[s].interval % 10 == 0)
  {
    assert CbOk(a.cb[s], s, a.align);
  }

  lemma Blocks(a: Timers, s: nat)
    requires Ok(a) && a.align && s < LIMIT == |a.cb| && a.cb[s].word.multiple && a.cb[s].state.Created? && 0 < a.cb[s].interval
    ensures forall i | 0 <= i < LIMIT :: IsLarger(a, s, i) <==> MultipleOf(a, s, i)
    ensures forall i | 0 <= i < LIMIT :: IsSmaller(a, s, i) <==> DivisorOf(a, s, i)
    ensures forall i: nat :: MultipleOf(a, s, i) || DivisorOf(a, s, i) ==> i < LIMIT
  {
    forall i | 0 <= i < LIMIT
      ensures IsLarger(a, s, i) <==> MultipleOf(a, s, i)
      ensures IsSmaller(a, s, i) <==> DivisorOf(a, s, i)
    {
      CandidatesAre(a, s, i);
    }
    hide Ok, IsLarger, IsSmaller;
  }

  lemma LargerOrder(a: Timers, s: nat, p: nat, i: nat)
    requires Ok(a) && a.align && s < LIMIT && a.cb[s].word.multiple && a.cb[s].state.Created? && 0 < a.cb[s].interval && p < LIMIT && i < LIMIT
    requires MultipleOf(a, s, p) && MultipleOf(a, s, i) && IsLarger(a, s, p) && IsLarger(a, s, i)
    requires Divisor(a, p) / Divisor(a, s) <= Divisor(a, i) / Divisor(a, s)
    ensures a.cb[p].interval <= a.cb[i].interval
  {
    WordTells(a, s, p);
    WordTells(a, s, i);
    hide Ok;
    Quotients(Divisor(a, s), Divisor(a, p), Divisor(a, i));
  }

  lemma SmallerOrder(a: Timers, s: nat, p: nat, i: nat)
    requires Ok(a) && a.align && s < LIMIT && a.cb[s].word.multiple && a.cb[s].state.Created? && p < LIMIT && i < LIMIT
    requires DivisorOf(a, s, p) && DivisorOf(a, s, i) && IsSmaller(a, s, p) && IsSmaller(a, s, i)
    requires Divisor(a, s) / Divisor(a, p) <= Divisor(a, s) / Divisor(a, i)
    ensures a.cb[i].interval <= a.cb[p].interval
  {
    WordTells(a, s, p);
    WordTells(a, s, i);
    hide Ok;
    Quotients(Divisor(a, s), Divisor(a, p), Divisor(a, i));
  }

  lemma SameIs(a: Timers, s: nat, i: nat)
    requires Ok(a) && a.align && s < LIMIT && i < LIMIT && a.cb[s].state.Created?
    ensures IsSame(a, s, i) <==> Running(a, s, i) && a.cb[i].interval == a.cb[s].interval
  {
    if i != s {
      WordTells(a, s, i);
    }
  }

  /** The countdown the started timer gets. */
  function StartCount(a: Timers, s: nat, choice: Choice): int
    requires s < |a.cb| && 0 < a.cb[s].interval
  {
    var interval := a.cb[s].interval;
    match choice
    case NoPartner => interval
    case Larger(p) =>
      if p in a.left && p < |a.cb| then interval - (a.cb[p].interval - a.left[p]) % interval else interval
    case Smaller(p) => if p in a.left then a.left[p] else interval
    case SameInterval(p) => if p in a.left then a.left[p] else interval
  }

  lemma DivisorDividesInterval(a: Timers, s: nat, p: nat)
    requires Ok(a) && s < LIMIT && p < LIMIT && a.cb[s].word.multiple && Divisor(a, p) != 0 && Divisor(a, s) != 0
    requires Divisor(a, p) % Divisor(a, s) == 0
    ensures 0 < a.cb[s].interval && a.cb[p].interval % a.cb[s].interval == 0
    ensures a.cb[s].interval == COMMON_DIVISOR * Divisor(a, s) && a.cb[p].interval == COMMON_DIVISOR * Divisor(a, p)
  {
    assert CbOk(a.cb[s], s, a.align) && CbOk(a.cb[p], p, a.align);
    var d, e := Divisor(a, s), Divisor(a, p);
    var k := e / d;
    assert e == k * d;
    assert COMMON_DIVISOR * e == k * (COMMON_DIVISOR * d);
    ModUnique(COMMON_DIVISOR * e, COMMON_DIVISOR * d, k, 0);
  }

  /** Starting `m - (p - y) % m` ticks ahead puts a timer of interval `m` in step with
      one of interval `p`, a multiple of `m`, that has `y` ticks left. */
  lemma Catch(m: int, p: int, y: int)
    requires 0 < m && p % m == 0 && 0 < y <= p
    ensures 0 < m - (p - y) % m <= m
    ensures (m - (p - y) % m) % m == y % m
  {
    var x := p - y;
    ModShift(m - x % m, y, m, x / m + 1 - p / m);
  }

  /** The started timer's countdown lies within its interval, so no subtraction of
      counts can wrap, and it is in step with the chosen partner. */
  lemma ChoiceInStep(a: Timers, s: nat, choice: Choice)
    requires Ok(a) && s < LIMIT && a.cb[s].state.Created? && ChoiceOk(a, s, choice)
    requires a.align && Alignable(a.cb[s]) ==> a.cb[s].word.can
    ensures 0 < a.cb[s].interval && 0 < StartCount(a, s, choice) <= a.cb[s].interval
    ensures var b := StartAt(a, s, StartCount(a, s, choice));
      match choice
      case NoPartner => true
      case Larger(p) => InStep(b, s, p)
      case Smaller(p) => InStep(b, p, s)
      case SameInterval(p) => InStep(b, s, p) && InStep(b, p, s)
  {
    assert CbOk(a.cb[s], s, a.align);
    match choice
    case NoPartner =>
    case Larger(p) =>
      assert CbOk(a.cb[p], p, a.align) && p in a.left;
      DivisorDividesInterval(a, s, p);
      Catch(a.cb[s].interval, a.cb[p].interval, a.left[p]);
    case Smaller(p) =>
      assert CbOk(a.cb[p], p, a.align) && p in a.left;
      DivisorDividesInterval(a, p, s);
    case SameInterval(p) =>
      assert CbOk(a.cb[p], p, a.align);
      ModUnique(a.cb[s].interval, a.cb[s].interval, 1, 0);
  }

  /** The countdown itself: that of a partner of the same interval or a shorter one, so
      that both expire together the next time; with a longer one the only number of
      ticks within the interval that is in step with it. */
  lemma CountMeans(a: Timers, s: nat, choice: Choice)
    requires Ok(a) && s < LIMIT && a.cb[s].state.Created? && ChoiceOk(a, s, choice)
    requires a.align && Alignable(a.cb[s]) ==> a.cb[s].word.can
    ensures 0 < a.cb[s].interval
    ensures choice.NoPartner? ==> StartCount(a, s, choice) == a.cb[s].interval
    ensures choice.Smaller? || choice.SameInterval? ==> choice.p in a.left && StartCount(a, s, choice) == a.left[choice.p]
    ensures choice.Larger? ==>
              && choice.p in a.left
              && forall v | 0 < v <= a.cb[s].interval :: v == StartCount(a, s, choice) <==> v % a.cb[s].interval == a.left[choice.p] % a.cb[s].interval
  {
    ChoiceInStep(a, s, choice);
    assert CbOk(a.cb[s], s, a.align);
    if choice.Larger? {
      var p, m := choice.p, a.cb[s].interval;
      assert CbOk(a.cb[p], p, a.align) && p in a.left;
      DivisorDividesInterval(a, s, p);
      Catch(m, a.cb[p].interval, a.left[p]);
      hide Ok, CbOk, ChoiceOk;
      forall v | 0 < v <= m && v % m == a.left[p] % m ensures v == StartCount(a, s, choice) {
        SameRemainder(v, StartCount(a, s, choice), m);
      }
    } else if choice.Smaller? {
      assert CbOk(a.cb[choice.p], choice.p, a.align);
    }
  }

  lemma SameRemainder(v: int, w: int, m: int)
    requires 0 < v <= m && 0 < w <= m && v % m == w % m
    ensures v == w
  {
    if v < m {
      ModUnique(v, m, 0, v);
    }
    if w < m {
      ModUnique(w, m, 0, w);
    }
  }

  /** With alignment off, and for every timer that may not be aligned, a start sets
      the countdown to the interval. */
  lemma UnalignedStart(a: Timers, s: nat, choice: Choice)
    requires Ok(a) && s < LIMIT && a.cb[s].state.Created? && ChoiceOk(a, s, choice)
    ensures 0 < a.cb[s].interval
    ensures !a.align || !Alignable(a.cb[s]) ==> choice == NoPartner && StartCount(a, s, choice) == a.cb[s].interval
  {
    assert CbOk(a.cb[s], s, a.align);
  }

  /** A timer with an aligned partner: all later expiries of the longer of the two
      coincide with expiries of the shorter, until one of them is touched. */
  lemma AlignedStartCoincides(a: Timers, s: nat, choice: Choice, states: seq<Timers>, events: seq<Event>, i: nat)
    requires Ok(a) && s < LIMIT && a.cb[s].state.Created? && ChoiceOk(a, s, choice) && choice != NoPartner
    requires a.align && Alignable(a.cb[s]) ==> a.cb[s].word.can
    requires 0 < a.cb[s].interval && 0 <= StartCount(a, s, choice)
    requires IsRun(states, events) && states[0] == StartAt(a, s, StartCount(a, s, choice))
    requires LeftAlone(events, s) && LeftAlone(events, choice.p)
    requires i < |events| && events[i].EvTick?
    ensures var fired := events[i].fired;
      match choice
      case NoPartner => true
      case Larger(p) => p in fired ==> s in fired
      case Smaller(p) => s in fired ==> p in fired
      case SameInterval(p) => s in fired <==> p in fired
  {
    hide IsRun, InStep, Ok;
    ChoiceInStep(a, s, choice);
    var fired := events[i].fired;
    if choice.p in fired && !choice.Smaller? {
      ExpiriesCoincide(states, events, s, choice.p, i);
    }
    if s in fired && !choice.Larger? {
      ExpiriesCoincide(states, events, choice.p, s, i);
    }
  }

  /** With alignment off, and for every timer that may not be aligned, what a user of
      timers expects: one of period `p` expires at the ticks p, 2p, 3p, ... after its
      start and at no other, a one-shot at tick `p` alone, until a call touches it. */
  lemma UnalignedFires(a: Timers, s: nat, choice: Choice, states: seq<Timers>, events: seq<Event>, i: nat)
    requires Ok(a) && s < LIMIT && a.cb[s].state.Created? && ChoiceOk(a, s, choice)
    requires !a.align || !Alignable(a.cb[s])
    requires 0 < a.cb[s].interval && 0 <= StartCount(a, s, choice)
    requires IsRun(states, events) && states[0] == StartAt(a, s, StartCount(a, s, choice)) && LeftAlone(events, s)
    requires i < |events| && events[i].EvTick?
    ensures var n, p := Ticks(events[..i + 1]), a.cb[s].interval;
      s in events[i].fired <==> if a.cb[s].mode.Period? then 0 < n && n % p == 0 else n == p
  {
    UnalignedStart(a, s, choice);
    var n, p := Ticks(events[..i + 1]), a.cb[s].interval;
    hide IsRun, LeftAlone, Ticks, Ok, ChoiceOk;
    if a.cb[s].mode.Period? {
      PeriodicFires(states, events, s, p, i);
      Multiples(n, p);
    } else {
      OneShotFires(states, events, s, p, i);
    }
  }

  /** From creation to expiry: a timer created with some interval and mode, not to be
      aligned, and started, expires when its user said. */
  lemma CreatedTimerFires(a: Timers, interval: nat, mode: Mode, insensitive: bool, choice: Choice,
                          states: seq<Timers>, events: seq<Event>, i: nat)
    requires Ok(a) && a.free != [] && a.free[0] < |a.cb| && 0 < interval < UINT32_RANGE && !(a.align && insensitive && mode.Period?)
    requires var s, b := a.free[0], CreateAt(a, interval, mode, insensitive);
      && 0 < b.cb[s].interval && ChoiceOk(b, s, choice) && 0 <= StartCount(b, s, choice)
      && IsRun(states, events) && states[0] == StartAt(b, s, StartCount(b, s, choice)) && LeftAlone(events, s)
    requires i < |events| && events[i].EvTick?
    ensures var n := Ticks(events[..i + 1]);
      a.free[0] in events[i].fired <==> if mode.Period? then 0 < n && n % interval == 0 else n == interval
  {
    TimerRuns.CreateAnswers(a, interval, mode, insensitive);
    CreateOk(a, interval, mode, insensitive);
    hide IsRun, LeftAlone, Ticks, Ok, ChoiceOk, CreateAt;
    UnalignedFires(CreateAt(a, interval, mode, insensitive), a.free[0], choice, states, events, i);
  }

  lemma Multiples(n: nat, p: nat)
    requires 0 < p
    ensures p <= n && (n - p) % p == 0 <==> 0 < n && n % p == 0
  {
    if p <= n {
      ModShift(n, n - p, p, 1);
    }
  }

  // ---------------------------------------------------------------- where the word goes wrong

  /** An alignable timer of just the interval that does not fit gets divisor 0, by which
      the search for a partner then divides. */
  lemma DivisorCutToZero(a: Timers)
    requires Ok(a) && a.align && a.free != []
    ensures a.free[0] < LIMIT
    ensures var b := CreateAt(a, COMMON_DIVISOR * DIVISOR_RANGE, Period, true);
      && Ok(b)
      && (var w := Marked(b, a.free[0]).cb[a.free[0]].word; w.can && w.multiple && w.divisor == 0)
  {
    assert a.free[0] in a.free;
    CreateOk(a, COMMON_DIVISOR * DIVISOR_RANGE, Period, true);
  }

  function Slot(i: nat): Cb {
    if i == 0 then Cb(Unused, Period, i, 50, true, ZERO)
    else if i == 1 then Cb(Ticking, Period, i, 100, true, Word(true, true, true, 10))
    else Cb(Unused, Once, i, 0, false, ZERO)
  }

  lemma SlotOk(i: nat)
    requires i < LIMIT
    ensures CbOk(Slot(i), i, true)
  {
  }

  /** Slot 0 is free and last held an alignable timer of 50 ticks; in slot 1 one of 100
      ticks is running with 95 to go. */
  function OneRunning(): Timers {
    Timers(true,
           seq(LIMIT, i requires 0 <= i => Slot(i)),
           map[1 := 95],
           [0] + seq(LIMIT - 2, i requires 0 <= i => i + 2))
  }

  lemma OneRunningOk()
    ensures Ok(OneRunning())
  {
    var a := OneRunning();
    hide CbOk, Distinct;
    FreeSlots();
    forall s | 0 <= s < LIMIT ensures CbOk(a.cb[s], s, a.align) {
      SlotOk(s);
    }
  }

  lemma FreeSlots()
    ensures var a := OneRunning();
      Distinct(a.free) && forall s: nat :: s in a.free <==> s < LIMIT && a.cb[s].state.Unused?
  {
    var a := OneRunning();
    assert a.free[0] == 0;
    forall s: nat ensures s in a.free <==> s < LIMIT && a.cb[s].state.Unused? {
      if 2 <= s < LIMIT {
        assert a.free[s - 1] == s;
      }
    }
  }

  /** A start of a deleted timer is refused, but it marks the slot, and a one-shot of
      30 ticks created there next is taken for an alignable timer: it starts with
      countdown 25. */
  lemma MarkedSlotShortensOneShot()
    ensures var a := OneRunning();
      && Ok(a) && a.cb[0].state.Unused? && Marked(a, 0).free != [] && Marked(a, 0).free[0] == 0
      && (var b := CreateAt(Marked(a, 0), 30, Once, false);
          && b.cb[0].mode.Once? && b.cb[0].interval == 30
          && ChoiceOk(b, 0, Larger(1)) && StartCount(b, 0, Larger(1)) == 25)
  {
    OneRunningOk();
    hide Ok;
    var b := CreateAt(Marked(OneRunning(), 0), 30, Once, false);
    assert IsLarger(b, 0, 1);
    forall i | 2 <= i < |b.cb| ensures !IsLarger(b, 0, i) {
      assert !Started(b.cb[i]);
    }
  }
}
