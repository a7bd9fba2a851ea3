/** los_swtmr.c: the software timers as a sorted list of increments, changed in
    place.  The list node of a running timer carries its `uwCount`; the rest of the
    control block is in `cb`.  Every method is shown to perform the corresponding
    step of module `Timers`. */
module Swtmr {
  import opened DeltaList
  import opened Timers
  import opened TimerRuns
  import opened Alignment
  import Modular

  datatype SortNode = SortNode(slot: nat, count: nat)

  const NO_TIMEOUT: nat := 0xFFFF_FFFF

  function Counts(sort: seq<SortNode>): (d: seq<nat>)
    ensures |d| == |sort|
  {
    seq(|sort|, i requires 0 <= i < |sort| => sort[i].count)
  }

  ghost predicate Has(sort: seq<SortNode>, s: nat) {
    exists i | 0 <= i < |sort| :: sort[i].slot == s
  }

  ghost predicate OnePlaceEach(sort: seq<SortNode>) {
    forall i, j | 0 <= i < j < |sort| :: sort[i].slot != sort[j].slot
  }

  /** The list holds exactly the timers of `left`, and the increments up to a timer
      add up to its countdown. */
  ghost predicate Represents(sort: seq<SortNode>, left: map<nat, nat>) {
    && OnePlaceEach(sort)
    && (forall i | 0 <= i < |sort| :: sort[i].slot in left && left[sort[i].slot] == Prefix(Counts(sort), i + 1))
    && (forall s <- left :: Has(sort, s))
  }

  // ---------------------------------------------------------------- list surgery

  function Inserted(sort: seq<SortNode>, p: nat, s: nat, a: nat): seq<SortNode>
    requires p <= |sort| && (p < |sort| ==> a <= sort[p].count)
  {
    sort[..p] + [SortNode(s, a)] + if p < |sort| then [sort[p].(count := sort[p].count - a)] + sort[p + 1..] else []
  }

  function Removed(sort: seq<SortNode>, p: nat): seq<SortNode>
    requires p < |sort|
  {
    sort[..p] + if p + 1 < |sort| then [sort[p + 1].(count := sort[p].count + sort[p + 1].count)] + sort[p + 2..] else []
  }

  lemma InsertedSlots(sort: seq<SortNode>, p: nat, s: nat, a: nat)
    requires p <= |sort| && (p < |sort| ==> a <= sort[p].count)
    ensures var t := Inserted(sort, p, s, a);
      && |t| == |sort| + 1 && t[p].slot == s
      && (forall i | 0 <= i < p :: t[i].slot == sort[i].slot)
      && (forall i | p < i < |t| :: t[i].slot == sort[i - 1].slot)
  {
  }

  lemma InsertedCounts(sort: seq<SortNode>, p: nat, s: nat, a: nat)
    requires p <= |sort| && (p < |sort| ==> a <= sort[p].count)
    ensures Counts(Inserted(sort, p, s, a)) == Insert(Counts(sort), p, a)
  {
  }

  lemma InsertedEntry(sort: seq<SortNode>, left: map<nat, nat>, p: nat, s: nat, a: nat, i: nat)
    requires Represents(sort, left) && s !in left
    requires p <= |sort| && (p < |sort| ==> a <= sort[p].count) && i <= |sort|
    ensures var t := Inserted(sort, p, s, a);
      && |t| == |sort| + 1
      && (i == p ==> t[i].slot == s && Prefix(Counts(t), i + 1) == Prefix(Counts(sort), p) + a)
      && (i != p ==> t[i].slot in left && left[t[i].slot] == Prefix(Counts(t), i + 1))
  {
    hide Inserted, Insert, Prefix;
    InsertedSlots(sort, p, s, a);
    InsertedCounts(sort, p, s, a);
    if i == p {
      PrefixInsert(Counts(sort), p, a, p);
    } else {
      var j := if i < p then i else i - 1;
      assert sort[j].slot in left && left[sort[j].slot] == Prefix(Counts(sort), j + 1);
      PrefixInsert(Counts(sort), p, a, j + 1);
    }
  }

  /** Linking a timer in with increment `a` at place `p` sets its countdown to the sum
      up to there and leaves all others as they were. */
  lemma InsertedOk(sort: seq<SortNode>, left: map<nat, nat>, p: nat, s: nat, a: nat)
    requires Represents(sort, left) && s !in left
    requires p <= |sort| && (p < |sort| ==> a <= sort[p].count)
    ensures Represents(Inserted(sort, p, s, a), left[s := Prefix(Counts(sort), p) + a])
  {
    hide *;
    InsertedBy(sort, left, p, s, a, Inserted(sort, p, s, a), left[s := Prefix(Counts(sort), p) + a]);
  }

  lemma InsertedBy(sort: seq<SortNode>, left: map<nat, nat>, p: nat, s: nat, a: nat, t: seq<SortNode>, left': map<nat, nat>)
    requires Represents(sort, left) && s !in left
    requires p <= |sort| && (p < |sort| ==> a <= sort[p].count)
    requires t == Inserted(sort, p, s, a) && left' == left[s := Prefix(Counts(sort), p) + a]
    ensures Represents(t, left')
  {
    Holdings(sort, left);
    hide *;
    InsertedOnce(sort, p, s, a);
    AllStandFor(sort, left, p, s, a);
    AllPresent(sort, left, p, s, a);
    assert left'.Keys == left.Keys + {s};
    Combine(t, left');
  }

  lemma AllStandFor(sort: seq<SortNode>, left: map<nat, nat>, p: nat, s: nat, a: nat)
    requires Represents(sort, left) && s !in left
    requires p <= |sort| && (p < |sort| ==> a <= sort[p].count)
    ensures var t, left' := Inserted(sort, p, s, a), left[s := Prefix(Counts(sort), p) + a];
      forall i | 0 <= i < |t| :: t[i].slot in left' && left'[t[i].slot] == Prefix(Counts(t), i + 1)
  {
    hide *;
    InsertedSlots(sort, p, s, a);
    var t, left' := Inserted(sort, p, s, a), left[s := Prefix(Counts(sort), p) + a];
    forall i | 0 <= i < |t| ensures t[i].slot in left' && left'[t[i].slot] == Prefix(Counts(t), i + 1) {
      InsertedStandsFor(sort, left, p, s, a, i);
    }
  }

  lemma AllPresent(sort: seq<SortNode>, left: map<nat, nat>, p: nat, s: nat, a: nat)
    requires forall x <- left :: Has(sort, x)
    requires p <= |sort| && (p < |sort| ==> a <= sort[p].count)
    ensures forall x <- left.Keys + {s} :: Has(Inserted(sort, p, s, a), x)
  {
    hide *;
    forall x <- left.Keys + {s} ensures Has(Inserted(sort, p, s, a), x) {
      InsertedHas(sort, p, s, a, x);
    }
  }

  lemma Holdings(sort: seq<SortNode>, left: map<nat, nat>)
    requires Represents(sort, left)
    ensures OnePlaceEach(sort) && forall x: nat :: x in left <==> Has(sort, x)
  {
    hide Prefix, Counts;
  }

  lemma Combine(sort: seq<SortNode>, left: map<nat, nat>)
    requires OnePlaceEach(sort) && forall x <- left :: Has(sort, x)
    requires forall i | 0 <= i < |sort| :: sort[i].slot in left && left[sort[i].slot] == Prefix(Counts(sort), i + 1)
    ensures Represents(sort, left)
  {
    hide OnePlaceEach, Has, Prefix, Counts;
  }

  lemma InsertedStandsFor(sort: seq<SortNode>, left: map<nat, nat>, p: nat, s: nat, a: nat, i: nat)
    requires Represents(sort, left) && s !in left
    requires p <= |sort| && (p < |sort| ==> a <= sort[p].count) && i <= |sort|
    ensures var t, left' := Inserted(sort, p, s, a), left[s := Prefix(Counts(sort), p) + a];
      |t| == |sort| + 1 && t[i].slot in left' && left'[t[i].slot] == Prefix(Counts(t), i + 1)
  {
    hide Inserted, Prefix, Counts, Represents;
    InsertedEntry(sort, left, p, s, a, i);
  }

  lemma InsertedHas(sort: seq<SortNode>, p: nat, s: nat, a: nat, x: nat)
    requires p <= |sort| && (p < |sort| ==> a <= sort[p].count)
    requires x == s || Has(sort, x)
    ensures Has(Inserted(sort, p, s, a), x)
  {
    InsertedSlots(sort, p, s, a);
    hide Inserted;
    if x != s {
      var i :| 0 <= i < |sort| && sort[i].slot == x;
      assert Inserted(sort, p, s, a)[if i < p then i else i + 1].slot == x;
    }
  }

  lemma InsertedOnce(sort: seq<SortNode>, p: nat, s: nat, a: nat)
    requires OnePlaceEach(sort) && !Has(sort, s) && p <= |sort| && (p < |sort| ==> a <= sort[p].count)
    ensures OnePlaceEach(Inserted(sort, p, s, a))
  {
    InsertedSlots(sort, p, s, a);
    hide Inserted;
  }

  lemma RemovedSlots(sort: seq<SortNode>, p: nat)
    requires p < |sort|
    ensures var t := Removed(sort, p);
      && |t| == |sort| - 1
      && (forall i | 0 <= i < p :: t[i].slot == sort[i].slot)
      && (forall i | p <= i < |t| :: t[i].slot == sort[i + 1].slot)
  {
  }

  lemma RemovedCounts(sort: seq<SortNode>, p: nat)
    requires p < |sort|
    ensures Counts(Removed(sort, p)) == Remove(Counts(sort), p)
  {
  }

  /** Unlinking a timer leaves all other countdowns as they were. */
  lemma RemovedOk(sort: seq<SortNode>, left: map<nat, nat>, p: nat)
    requires Represents(sort, left) && p < |sort|
    ensures Represents(Removed(sort, p), left - {sort[p].slot})
  {
    hide Removed, Remove, Prefix;
    var t, left', d := Removed(sort, p), left - {sort[p].slot}, Counts(sort);
    RemovedSlots(sort, p);
    RemovedCounts(sort, p);
    forall i | 0 <= i < |t| ensures t[i].slot in left' && left'[t[i].slot] == Prefix(Counts(t), i + 1) {
      PrefixRemove(d, p, if i < p then i + 1 else i + 2);
    }
    forall x <- left' ensures Has(t, x) {
      var i :| 0 <= i < |sort| && sort[i].slot == x;
      assert t[if i < p then i else i - 1].slot == x;
    }
  }

  /** Decrementing the head's count takes one tick off every timer. */
  lemma DecHeadOk(sort: seq<SortNode>, left: map<nat, nat>)
    requires Represents(sort, left) && sort != [] && 0 < sort[0].count
    ensures Represents(sort[0 := sort[0].(count := sort[0].count - 1)], Decrement(left))
  {
    var t := sort[0 := sort[0].(count := sort[0].count - 1)];
    assert Counts(t) == Counts(sort)[0 := sort[0].count - 1];
    forall i | 0 <= i < |t| ensures t[i].slot in left && left[t[i].slot] > 0 && left[t[i].slot] - 1 == Prefix(Counts(t), i + 1) {
      PrefixDecHead(Counts(sort), i + 1);
      PrefixMonotone(Counts(sort), 1, i + 1);
      assert Prefix(Counts(sort), 1) == Prefix(Counts(sort), 0) + sort[0].count;
      assert t[i].slot == sort[i].slot;
    }
    forall x <- left ensures Has(t, x) {
      var i :| 0 <= i < |sort| && sort[i].slot == x;
      assert t[i].slot == x;
    }
  }

  /** The head expires first. */
  lemma HeadFirst(sort: seq<SortNode>, left: map<nat, nat>)
    requires Represents(sort, left) && sort != []
    ensures sort[0].slot in left && left[sort[0].slot] == sort[0].count
    ensures forall s <- left :: sort[0].count <= left[s]
  {
    var d := Counts(sort);
    assert Prefix(d, 1) == Prefix(d, 0) + d[0];
    forall s <- left ensures sort[0].count <= left[s] {
      var i :| 0 <= i < |sort| && sort[i].slot == s;
      PrefixMonotone(d, 1, i + 1);
    }
  }

  /** Unlinking an expired head. */
  lemma PopOk(sort: seq<SortNode>, left: map<nat, nat>)
    requires Represents(sort, left) && sort != [] && sort[0].count == 0
    ensures Represents(sort[1..], left - {sort[0].slot})
  {
    RemovedOk(sort, left, 0);
    hide Represents;
    RemovedHead(sort);
  }

  lemma RemovedHead(sort: seq<SortNode>)
    requires sort != [] && sort[0].count == 0
    ensures Removed(sort, 0) == sort[1..]
  {
  }

  // ---------------------------------------------------------------- the timer pool

  datatype Ret = LosOk | IntervalNotSuited | ModeInvalid | PtrNull | RetPtrNull | RousesInvalid | AlignInvalid
    | MaxSize | IdInvalid | NotCreated | NotStarted | TickPtrNull

  class Pool {
    const align: bool             // LOSCFG_BASE_CORE_SWTMR_ALIGN
    const cb: array<Cb>           // m_pstSwtmrCBArray, with m_uwSwTmrAlignID
    var sort: seq<SortNode>       // m_pstSwtmrSortList
    var free: seq<nat>            // m_pstSwtmrFreeList
    ghost var left: map<nat, nat>

    ghost function Abs(): Timers
      reads this, cb
    {
      Timers(align, cb[..], left, free)
    }

    /** The list represents the countdowns; holds also while timers are being fired. */
    ghost predicate Repr()
      reads this, cb
    {
      cb.Length == LIMIT && Represents(sort, left)
    }

    ghost predicate Valid()
      reads this, cb
    {
      Repr() && Ok(Abs())
    }

    /** osSwTmrInit: all control blocks are free and have their slot as ID. */
    constructor (align: bool)
      ensures Valid() && this.align == align && fresh(cb)
      ensures left == map[] && free == seq(LIMIT, s => s) && forall s | 0 <= s < LIMIT :: cb[s].id == s
    {
      this.align := align;
      cb := new Cb[LIMIT](s requires 0 <= s => Cb(Unused, Once, s, 0, false, ZERO));
      sort := [];
      free := seq(LIMIT, s => s);
      left := map[];
      new;
      forall s: nat | s < LIMIT ensures s in free && CbOk(cb[s], s, align) {
        assert free[s] == s;
      }
    }

    /** The insertion loop at the end of osSwTmrStart. */
    method InsertSorted(s: nat, interval: nat)
      requires Repr() && s !in left
      modifies this`sort, this`left
      ensures Repr() && left == old(left)[s := interval]
    {
      var rest: nat, p := interval, 0;
      while p < |sort| && sort[p].count <= rest
        invariant p <= |sort| && rest + Prefix(Counts(sort), p) == interval
      {
        rest := rest - sort[p].count;
        p := p + 1;
      }
      hide Represents, Inserted, Prefix, Counts;
      InsertedOk(sort, left, p, s, rest);
      sort := Inserted(sort, p, s, rest);
      left := left[s := interval];
    }

    /** The jump to Inset_list: right behind a running partner, with count 0. */
    method InsertBehind(s: nat, partner: nat)
      requires Repr() && s !in left && partner in left
      modifies this`sort, this`left
      ensures Repr() && left == old(left)[s := old(left[partner])]
    {
      assert Has(sort, partner);
      hide Inserted, Prefix;
      var p :| 0 <= p < |sort| && sort[p].slot == partner;
      InsertedOk(sort, left, p + 1, s, 0);
      sort := Inserted(sort, p + 1, s, 0);
      left := left[s := left[partner]];
    }

    /** The search for the timers with the closest larger and smaller interval.  A
        result of LIMIT means there is none. */
    method ClosestMultiples(s: nat) returns (larger: nat, smaller: nat)
      requires cb.Length == LIMIT && s < LIMIT && 0 < cb[s].word.divisor < DIVISOR_RANGE
      requires forall i | 0 <= i < LIMIT :: cb[i].word.divisor < DIVISOR_RANGE
      ensures larger <= LIMIT && smaller <= LIMIT
      ensures larger < LIMIT ==> IsLarger(Abs(), s, larger)
      ensures forall i | 0 <= i < LIMIT && IsLarger(Abs(), s, i) ::
                larger < LIMIT && Divisor(Abs(), larger) / Divisor(Abs(), s) <= Divisor(Abs(), i) / Divisor(Abs(), s)
      ensures smaller < LIMIT ==> IsSmaller(Abs(), s, smaller)
      ensures forall i | 0 <= i < LIMIT && IsSmaller(Abs(), s, i) ::
                smaller < LIMIT && Divisor(Abs(), s) / Divisor(Abs(), smaller) <= Divisor(Abs(), s) / Divisor(Abs(), i)
    {
      var minInLarge, maxInLittle := NO_TIMEOUT, NO_TIMEOUT;
      larger, smaller := LIMIT, LIMIT;
      ghost var a := Abs();
      var times := cb[s].word.divisor;
      var i := 0;
      while i < LIMIT
        invariant i <= LIMIT && larger <= LIMIT && smaller <= LIMIT
        invariant larger == LIMIT ==> minInLarge == NO_TIMEOUT
        invariant smaller == LIMIT ==> maxInLittle == NO_TIMEOUT
        invariant larger < LIMIT ==> IsLarger(a, s, larger) && minInLarge == Divisor(a, larger) / times
        invariant smaller < LIMIT ==> IsSmaller(a, s, smaller) && maxInLittle == times / Divisor(a, smaller)
        invariant forall j | 0 <= j < i && IsLarger(a, s, j) :: larger < LIMIT && minInLarge <= Divisor(a, j) / times
        invariant forall j | 0 <= j < i && IsSmaller(a, s, j) :: smaller < LIMIT && maxInLittle <= times / Divisor(a, j)
      {
        var other := cb[i].word.divisor;
        if other != 0 && i != s && Started(cb[i]) {
          QuotientBound(other, times);
          QuotientBound(times, other);
          if other >= times && other % times == 0 {
            if minInLarge > other / times {
              minInLarge, larger := other / times, i;
            }
          } else if other < times && times % other == 0 {
            if maxInLittle > times / other {
              maxInLittle, smaller := times / other, i;
            }
          }
        }
        i := i + 1;
      }
    }

    /** The walk that adds up counts until it meets a timer: osSwtmrTimeGet, and the
        search for the larger partner in osSwTmrStart. */
    method TimeLeft(s: nat) returns (ticks: nat)
      requires Repr() && s in left
      ensures ticks == left[s]
    {
      assert Has(sort, s);
      ghost var k :| 0 <= k < |sort| && sort[k].slot == s;
      var i := 0;
      ticks := sort[0].count;
      assert Prefix(Counts(sort), 1) == Prefix(Counts(sort), 0) + sort[0].count;
      while sort[i].slot != s
        invariant i <= k && ticks == Prefix(Counts(sort), i + 1)
        decreases k - i
      {
        i := i + 1;
        ticks := ticks + sort[i].count;
      }
    }

    /** The first running timer, in list order, with the same interval and already
        aligned. */
    method SameIntervalPartner(s: nat) returns (found: bool, partner: nat)
      requires Repr() && s < LIMIT && forall x <- left :: x < LIMIT
      ensures found ==> partner < LIMIT && IsSame(Abs(), s, partner)
      ensures !found ==> forall i | 0 <= i < LIMIT :: !IsSame(Abs(), s, i)
    {
      var i := 0;
      found, partner := false, 0;
      while i < |sort|
        invariant i <= |sort|
        invariant forall j | 0 <= j < i :: !IsSame(Abs(), s, sort[j].slot)
      {
        assert sort[i].slot in left;
        if cb[sort[i].slot].interval == cb[s].interval && Started(cb[sort[i].slot]) {
          return true, sort[i].slot;
        }
        i := i + 1;
      }
      forall x | 0 <= x < LIMIT ensures !IsSame(Abs(), s, x) {
        if x in left {
          assert Has(sort, x);
        }
      }
    }

    /** The CAN_MULTI_ALIGN branch of osSwTmrStart. */
    method StartMultiple(s: nat) returns (ghost choice: Choice)
      requires Valid() && s < LIMIT && cb[s].state.Created? && Searches(cb[s]) && cb[s].word.multiple
      modifies this`sort, this`left
      ensures Repr() && 0 < cb[s].interval && ChoiceOk(old(Abs()), s, choice)
      ensures 0 <= StartCount(old(Abs()), s, choice) && left == old(left)[s := StartCount(old(Abs()), s, choice)]
    {
      hide Represents;
      ghost var a := Abs();
      WordsBounded(a);
      var larger, smaller := ClosestMultiples(s);
      choice := if larger != LIMIT then Larger(larger) else if smaller != LIMIT then Smaller(smaller) else NoPartner;
      assert ChoiceOk(a, s, choice);
      ChoiceInStep(a, s, choice);
      if choice != NoPartner {
        PartnerRuns(a, s, choice);
      }
      if larger != LIMIT {
        var ticks := TimeLeft(larger);
        InsertSorted(s, cb[s].interval - (cb[larger].interval - ticks) % cb[s].interval);
      } else if smaller != LIMIT {
        InsertBehind(s, smaller);
      } else {
        InsertSorted(s, cb[s].interval);
      }
    }

    /** The CAN_PERIODIC_ALIGN branch of osSwTmrStart. */
    method StartSame(s: nat) returns (ghost choice: Choice)
      requires Valid() && s < LIMIT && cb[s].state.Created? && Searches(cb[s]) && !cb[s].word.multiple
      modifies this`sort, this`left
      ensures Repr() && 0 < cb[s].interval && ChoiceOk(old(Abs()), s, choice)
      ensures 0 <= StartCount(old(Abs()), s, choice) && left == old(left)[s := StartCount(old(Abs()), s, choice)]
    {
      hide Represents;
      ghost var a := Abs();
      assert CbOk(cb[s], s, align);
      var found, partner := SameIntervalPartner(s);
      if found {
        choice := SameInterval(partner);
        ChoiceInStep(a, s, choice);
        InsertBehind(s, partner);
      } else {
        choice := NoPartner;
        InsertSorted(s, cb[s].interval);
      }
    }

    /** osSwTmrStart.  A search for a partner only happens for an idle timer. */
    method SwTmrStart(s: nat) returns (ghost choice: Choice)
      requires Repr() && s < LIMIT && s !in left && 0 < cb[s].interval
      requires Searches(cb[s]) ==> Ok(Abs()) && cb[s].state.Created?
      modifies this`sort, this`left, cb
      ensures Repr() && old(s < |Abs().cb|) && ChoiceOk(old(Abs()), s, choice)
      ensures 0 <= StartCount(old(Abs()), s, choice) && Abs() == StartAt(old(Abs()), s, StartCount(old(Abs()), s, choice))
    {
      hide Represents, IsLarger, IsSmaller, IsSame;
      if Searches(cb[s]) {
        if cb[s].word.multiple {
          choice := StartMultiple(s);
        } else {
          choice := StartSame(s);
        }
      } else {
        choice := NoPartner;
        InsertSorted(s, cb[s].interval);
      }
      cb[s] := cb[s].(state := Ticking, word := cb[s].word.(already := cb[s].word.can));
    }

    /** osSwtmrStop. */
    method SwtmrStop(s: nat)
      requires Repr() && s in left && s < LIMIT
      modifies this`sort, this`left, cb
      ensures Repr() && Abs() == StopAt(old(Abs()), s)
    {
      assert Has(sort, s);
      var p :| 0 <= p < |sort| && sort[p].slot == s;
      RemovedOk(sort, left, p);
      sort := Removed(sort, p);
      left := left - {s};
      cb[s] := cb[s].(state := Created, word := cb[s].word.(already := false));
    }

    /** osSwtmrDelete. */
    method SwtmrDelete(s: nat)
      requires Repr() && s < LIMIT
      modifies this`free, cb
      ensures Repr() && Abs() == DeleteAt(old(Abs()), s)
    {
      free := [s] + free;
      cb[s] := cb[s].(state := Unused, word := ZERO);
    }

    // ------------------------------------------------------------ the tick

    /** Unlinking the expired head of the list. */
    method PopHead() returns (s: nat)
      requires Repr() && Base(Abs()) && sort != [] && sort[0].count == 0
      modifies this`sort, this`left
      ensures Repr() && s == old(sort[0].slot) && left == old(left) - {s}
      ensures s < LIMIT && cb[s].state.Ticking? && CbOk(cb[s], s, align) && s in old(left)
    {
      s := sort[0].slot;
      HeadFirst(sort, left);
      PopOk(sort, left);
      sort := sort[1..];
      left := left - {s};
    }

    /** One round of osSwTmrTimeoutHandle, for the timer at the head of the list. */
    method FireHead()
      requires Repr() && Base(Abs()) && sort != [] && sort[0].count == 0
      modifies this, cb
      ensures old(sort[0].slot < |Abs().cb|) && Repr() && Abs() == FireOne(old(Abs()), old(sort[0].slot))
    {
      hide Represents, Base;
      var s := PopHead();
      if cb[s].mode.Once? {
        RecycleExpired(s);
      } else if cb[s].mode.Period? {
        InsertAgain(s);
        assert left == old(left)[s := cb[s].interval];
      } else {
        cb[s] := cb[s].(state := Created);
      }
    }

    /** A one-shot timer that has expired is deleted and its ID moves on. */
    method RecycleExpired(s: nat)
      requires Repr() && s < LIMIT
      modifies this`free, cb
      ensures Repr() && free == [s] + old(free)
      ensures cb[..] == old(cb[..])[s := old(cb[s]).(state := Unused, id := Bump(old(cb[s].id)), word := ZERO)]
    {
      SwtmrDelete(s);
      cb[s] := cb[s].(id := Bump(cb[s].id));
    }

    /** osSwTmrStart on a periodic timer that has just expired: it counts its whole
        interval again. */
    method InsertAgain(s: nat)
      requires Repr() && s < LIMIT && s !in left && CbOk(cb[s], s, align) && cb[s].state.Ticking?
      modifies this`sort, this`left, cb
      ensures Repr() && left == old(left)[s := cb[s].interval] && cb[..] == old(cb[..])
    {
      hide Represents;
      ghost var choice := SwTmrStart(s);
    }

    /** osSwTmrTimeoutHandle; ends because firing a timer leaves one fewer at zero.
        `fired` lists the timers whose handlers were posted, in order. */
    method TimeoutHandle() returns (fired: seq<nat>)
      requires Repr() && Base(Abs())
      modifies this, cb
      ensures Repr() && Lists(fired, old(left), 0) && (forall s <- fired :: s < LIMIT)
      ensures old(|Abs().cb|) == LIMIT && Abs() == FireAll(old(Abs()), fired)
    {
      hide Represents, Base, FireOne, FireAll;
      fired := [];
      ghost var a := Abs();
      FiredNone(a);
      while sort != [] && sort[0].count == 0
        invariant Repr() && Base(Abs())
        invariant FiredSoFar(a, Abs(), fired)
        decreases Zeros(left)
      {
        var s := sort[0].slot;
        HeadFirst(sort, left);
        FireMore(a, Abs(), fired, s);
        FireHead();
        fired := fired + [s];
      }
      NoZeros(sort, left);
      FiredAll(a, Abs(), fired);
    }

    /** The head's count goes down: one tick for every timer. */
    method CountDown() returns (due: bool)
      requires Valid() && sort != []
      modifies this`sort, this`left
      ensures Repr() && Base(Abs()) && left == Decrement(old(left)) && sort != []
      ensures due == (sort[0].count == 0) && (due || forall s <- left :: left[s] != 0)
    {
      hide Represents, CbOk, Distinct;
      HeadFirst(sort, left);
      DecHeadOk(sort, left);
      sort := sort[0 := sort[0].(count := sort[0].count - 1)];
      left := Decrement(left);
      HeadFirst(sort, left);
      due := sort[0].count == 0;
    }

    /** osSwtmrScan. */
    method SwtmrScan() returns (fired: seq<nat>)
      requires Valid()
      modifies this, cb
      ensures Valid() && Lists(fired, old(left), 1) && (forall s <- fired :: s < LIMIT)
      ensures old(|Abs().cb|) == LIMIT && Abs() == Tick(old(Abs()), fired)
    {
      hide Represents, Base, FireAll, Lists;
      ghost var a := Abs();
      assert |a.cb| == LIMIT;
      fired := [];
      if sort != [] {
        var due := CountDown();
        if due {
          fired := TimeoutHandle();
        }
        NoneListed(a, fired, due);
      } else {
        NothingRuns(sort, left);
        NoneListed(a, fired, false);
      }
      TickEffect(a, fired);
    }

    // ------------------------------------------------------------ calls

    /** LOS_SwtmrCreate.  The mode and the two alignment parameters arrive as numbers;
        the flags say whether the handler and the ID pointer are null. */
    method SwtmrCreate(interval: nat, mode: nat, handlerNull: bool, idNull: bool, rouses: nat, sensitive: nat)
      returns (r: Ret, id: nat)
      requires Valid() && interval < UINT32_RANGE
      modifies this, cb
      ensures Valid()
      ensures r == (if interval == 0 then IntervalNotSuited
                    else if mode > 2 then ModeInvalid
                    else if handlerNull then PtrNull
                    else if idNull then RetPtrNull
                    else if align && rouses > 1 then RousesInvalid
                    else if align && sensitive > 1 then AlignInvalid
                    else if old(free) == [] then MaxSize else LosOk)
      ensures r != LosOk ==> Abs() == old(Abs())
      ensures r == LosOk ==> StepTo(old(Abs()), EvCreate(interval, ModeOf(mode), align && sensitive == 1), Abs())
      ensures r == LosOk ==> old(free != [] && free[0] < cb.Length) && id == old(cb[free[0]].id)
    {
      id := 0;
      if interval == 0 { return IntervalNotSuited, id; }
      if mode > 2 { return ModeInvalid, id; }
      if handlerNull { return PtrNull, id; }
      if idNull { return RetPtrNull, id; }
      if align && rouses > 1 { return RousesInvalid, id; }
      if align && sensitive > 1 { return AlignInvalid, id; }
      if free == [] { return MaxSize, id; }
      var s := free[0];
      CreateOk(Abs(), interval, ModeOf(mode), align && sensitive == 1);
      hide Represents, WordOk;
      free := free[1..];
      cb[s] := cb[s].(state := Created, mode := ModeOf(mode), interval := interval, insensitive := align && sensitive == 1);
      id := cb[s].id;
      r := LosOk;
    }

    /** CHECK_SWTMRID. */
    predicate IdOk(id: nat)
      requires cb.Length == LIMIT
      reads this, cb
    {
      id < MAX_TIMERID && cb[id % LIMIT].id == id
    }

    /** LOS_SwtmrStart.  With alignment, the interval of an alignable timer must fit the
        24-bit divisor.  On success the timer gets the countdown `v` that its partner
        `choice` implies.  Starting a timer that was deleted is reported as an error
        but still marks its alignment word. */
    method LosSwtmrStart(id: nat) returns (r: Ret, ghost v: nat, ghost choice: Choice)
      requires Valid()
      requires align && IdOk(id) && !cb[id % LIMIT].state.Unused? ==> !Unsuited(cb[id % LIMIT])
      modifies this, cb
      ensures r == old(if !IdOk(id) then IdInvalid else if cb[id % LIMIT].state.Unused? then NotCreated else LosOk)
      ensures r == IdInvalid ==> Abs() == old(Abs())
      ensures r == NotCreated ==> old(id % LIMIT < |Abs().cb|) && Abs() == Marked(old(Abs()), id % LIMIT)
      ensures r == NotCreated ==> (Valid() <==> !(align && old(Unsuited(cb[id % LIMIT]))))
      ensures r == LosOk ==> Valid() && StepTo(old(Abs()), EvStart(id % LIMIT, v), Abs())
      ensures r == LosOk ==> (
        var s, a := id % LIMIT, Stopped(Marked(old(Abs()), id % LIMIT), id % LIMIT);
        0 < a.cb[s].interval && ChoiceOk(a, s, choice) && v == StartCount(a, s, choice))
    {
      choice, v := NoPartner, 0;
      ghost var a := Abs();
      if !IdOk(id) { return IdInvalid, v, choice; }
      var s := id % LIMIT;
      if align {
        cb[s] := Prepared(cb[s]);
      }
      if cb[s].state.Unused? {
        MarkedUnused(a, s);
        return NotCreated, v, choice;
      }
      MarkedOk(a, s);
      v, choice := Restart(s);
      assert Abs() == Next(a, EvStart(s, v));
      r := LosOk;
    }

    /** The TICKING and CREATED cases of LOS_SwtmrStart. */
    method Restart(s: nat) returns (ghost v: nat, ghost choice: Choice)
      requires Valid() && s < LIMIT && !cb[s].state.Unused?
      requires align && Alignable(cb[s]) ==> cb[s].word.can
      modifies this`sort, this`left, cb
      ensures var a := Stopped(old(Abs()), s);
        && 0 < a.cb[s].interval && ChoiceOk(a, s, choice) && v == StartCount(a, s, choice)
        && 0 < v <= a.cb[s].interval && Abs() == StartAt(a, s, v)
      ensures Valid()
    {
      StoppedOk(Abs(), s);
      if cb[s].state.Ticking? {
        SwtmrStop(s);
      }
      ghost var b := Abs();
      assert CbOk(b.cb[s], s, align);
      choice := SwTmrStart(s);
      ChoiceInStep(b, s, choice);
      v := StartCount(b, s, choice);
      StartOk(b, s, v);
    }

    /** LOS_SwtmrStop. */
    method LosSwtmrStop(id: nat) returns (r: Ret)
      requires Valid()
      modifies this, cb
      ensures Valid()
      ensures r == old(if !IdOk(id) then IdInvalid else if cb[id % LIMIT].state.Unused? then NotCreated
                       else if cb[id % LIMIT].state.Created? then NotStarted else LosOk)
      ensures if r == LosOk then StepTo(old(Abs()), EvStop(id % LIMIT), Abs()) else Abs() == old(Abs())
    {
      if !IdOk(id) { return IdInvalid; }
      var s := id % LIMIT;
      if cb[s].state.Unused? { return NotCreated; }
      if cb[s].state.Created? { return NotStarted; }
      ghost var a := Abs();
      StopOk(a, s);
      SwtmrStop(s);
      r := LosOk;
    }

    /** LOS_SwtmrTimeGet. */
    method LosSwtmrTimeGet(id: nat, tickNull: bool) returns (r: Ret, ticks: nat)
      requires Valid()
      ensures r == (if id >= MAX_TIMERID then IdInvalid else if tickNull then TickPtrNull
                    else if !IdOk(id) then IdInvalid
                    else if cb[id % LIMIT].state.Unused? then NotCreated
                    else if cb[id % LIMIT].state.Created? then NotStarted else LosOk)
      ensures r == LosOk ==> id % LIMIT in left && ticks == left[id % LIMIT]
    {
      ticks := 0;
      if id >= MAX_TIMERID { return IdInvalid, ticks; }
      if tickNull { return TickPtrNull, ticks; }
      if !IdOk(id) { return IdInvalid, ticks; }
      var s := id % LIMIT;
      if cb[s].state.Unused? { return NotCreated, ticks; }
      if cb[s].state.Created? { return NotStarted, ticks; }
      ticks := TimeLeft(s);
      r := LosOk;
    }

    /** LOS_SwtmrDelete. */
    method LosSwtmrDelete(id: nat) returns (r: Ret)
      requires Valid()
      modifies this, cb
      ensures Valid()
      ensures r == old(if !IdOk(id) then IdInvalid else if cb[id % LIMIT].state.Unused? then NotCreated else LosOk)
      ensures if r == LosOk then StepTo(old(Abs()), EvDelete(id % LIMIT), Abs()) else Abs() == old(Abs())
    {
      if !IdOk(id) { return IdInvalid; }
      var s := id % LIMIT;
      if cb[s].state.Unused? { return NotCreated; }
      ghost var a := Abs();
      StoppedOk(a, s);
      DeleteOk(Stopped(a, s), s);
      if cb[s].state.Ticking? {
        SwtmrStop(s);
      }
      SwtmrDelete(s);
      r := LosOk;
    }

    /** osSwTmrGetNextTimeout without alignment: the countdown of the first timer. */
    method NextTimeout() returns (ticks: nat)
      requires Valid()
      ensures left == map[] ==> ticks == NO_TIMEOUT
      ensures left != map[] ==> (exists s <- left :: left[s] == ticks) && forall s <- left :: ticks <= left[s]
    {
      if sort == [] {
        NothingRuns(sort, left);
        return NO_TIMEOUT;
      }
      HeadFirst(sort, left);
      ticks := sort[0].count;
    }
  }

  /** 0 is a one-shot that deletes itself, 1 a periodic timer, 2 a one-shot that stays. */
  lemma ModeAnswers()
    ensures ModeOf(0) == Once && ModeOf(1) == Period && ModeOf(2) == NoSelfDelete
  {
  }

  function ModeOf(mode: nat): Mode {
    if mode == 0 then Once else if mode == 1 then Period else NoSelfDelete
  }

  /** Marking a deleted timer breaks the invariant exactly when it is alignable. */
  lemma MarkedUnused(a: Timers, s: nat)
    requires Ok(a) && s < LIMIT && a.cb[s].state.Unused?
    ensures Ok(Marked(a, s)) <==> !(a.align && Unsuited(a.cb[s]))
  {
    assert CbOk(a.cb[s], s, a.align);
    if a.align {
      if Unsuited(a.cb[s]) {
        assert !CbOk(Marked(a, s).cb[s], s, a.align);
      } else {
        assert Marked(a, s).cb == a.cb;
      }
    }
  }

  function Zeros(left: map<nat, nat>): set<nat> {
    set s | s in left && left[s] == 0
  }

  /** The timers at zero after the decrement are those that had one tick left. */
  lemma NoneListed(a: Timers, fired: seq<nat>, due: bool)
    requires Ok(a) && (if due then Lists(fired, Decrement(a.left), 0) else fired == [] && forall s <- a.left :: Decrement(a.left)[s] != 0)
    ensures Lists(fired, a.left, 1)
    ensures fired == [] ==> FireAll(a.(left := Decrement(a.left)), fired) == a.(left := Decrement(a.left))
  {
    hide Base;
  }

  lemma NothingRuns(sort: seq<SortNode>, left: map<nat, nat>)
    requires Represents(sort, left) && sort == []
    ensures left == map[]
  {
    assert forall s <- left :: Has(sort, s);
    assert forall s :: s !in left;
  }

  lemma NoZeros(sort: seq<SortNode>, left: map<nat, nat>)
    requires Represents(sort, left) && (sort != [] ==> 0 < sort[0].count)
    ensures Zeros(left) == {}
  {
    if sort == [] {
      NothingRuns(sort, left);
    } else {
      HeadFirst(sort, left);
    }
  }

  lemma PartnerRuns(a: Timers, s: nat, choice: Choice)
    requires Ok(a) && s < LIMIT && ChoiceOk(a, s, choice) && choice != NoPartner
    ensures choice.p < LIMIT && choice.p in a.left && a.left[choice.p] <= a.cb[choice.p].interval
  {
    assert CbOk(a.cb[choice.p], choice.p, a.align);
  }

  lemma WordsBounded(a: Timers)
    requires Ok(a)
    ensures |a.cb| == LIMIT && forall i | 0 <= i < LIMIT :: a.cb[i].word.divisor < DIVISOR_RANGE
    ensures forall i | 0 <= i < LIMIT && a.cb[i].word.multiple :: 0 < a.cb[i].word.divisor
  {
    forall i | 0 <= i < LIMIT
      ensures a.cb[i].word.divisor < DIVISOR_RANGE && (a.cb[i].word.multiple ==> 0 < a.cb[i].word.divisor)
    {
      assert CbOk(a.cb[i], i, a.align);
    }
  }

  /** `b` is reached from `a` by firing `fired`, all of which stood at zero. */
  ghost predicate FiredSoFar(a: Timers, b: Timers, fired: seq<nat>) {
    && Distinct(fired)
    && (forall s <- fired :: s < LIMIT == |a.cb| && s in a.left && a.left[s] == 0)
    && b == FireAll(a, fired)
    && Zeros(b.left) == Zeros(a.left) - set s | s in fired
  }

  lemma FireAllSize(a: Timers, fired: seq<nat>)
    requires forall s <- fired :: s < |a.cb|
    ensures |FireAll(a, fired).cb| == |a.cb|
    decreases |fired|
  {
    if fired != [] {
      assert fired[0] in fired && forall x <- fired[1..] :: x in fired;
      FireAllSize(FireOne(a, fired[0]), fired[1..]);
    }
  }

  lemma {:induction false} FireAllSnoc(a: Timers, fired: seq<nat>, s: nat)
    requires s < |a.cb| && forall x <- fired :: x < |a.cb|
    ensures |FireAll(a, fired).cb| == |a.cb|
    ensures (forall x <- fired + [s] :: x < |a.cb|) && FireAll(a, fired + [s]) == FireOne(FireAll(a, fired), s)
    decreases |fired|
  {
    FireAllSize(a, fired);
    if fired == [] {
      assert fired + [s] == [s];
    } else {
      assert fired[0] in fired && forall x <- fired[1..] :: x in fired;
      FireAllSnoc(FireOne(a, fired[0]), fired[1..], s);
      assert (fired + [s])[1..] == fired[1..] + [s];
    }
  }

  lemma FiredNone(a: Timers)
    ensures FiredSoFar(a, a, [])
  {
  }

  lemma FiredAll(a: Timers, b: Timers, fired: seq<nat>)
    requires FiredSoFar(a, b, fired) && Zeros(b.left) == {} && |a.cb| == LIMIT
    ensures Lists(fired, a.left, 0) && (forall s <- fired :: s < LIMIT) && b == FireAll(a, fired)
  {
    var done := set x | x in fired;
    assert Zeros(a.left) == Zeros(a.left) * done + (Zeros(a.left) - done) == Zeros(a.left) * done;
    forall s: nat ensures s in fired <==> s in a.left && a.left[s] == 0 {
      assert s in Zeros(a.left) <==> s in Zeros(a.left) * done;
    }
  }

  lemma FireMore(a: Timers, b: Timers, fired: seq<nat>, s: nat)
    requires FiredSoFar(a, b, fired) && Base(a) && Base(b) && s in b.left && b.left[s] == 0
    ensures s < LIMIT == |b.cb| && FiredSoFar(a, FireOne(b, s), fired + [s]) && Base(FireOne(b, s))
    ensures Zeros(FireOne(b, s).left) == Zeros(b.left) - {s} && s in Zeros(b.left)
  {
    assert CbOk(b.cb[s], s, b.align);
    FireOneOk(b, s);
    FireAllSnoc(a, fired, s);
    FireOneZeros(b, s);
    hide FireOne, FireAll, Base;
    assert s in Zeros(b.left);
    assert s in Zeros(a.left) && s !in fired;
    assert (set x | x in fired + [s]) == (set x | x in fired) + {s};
  }

  lemma FireOneZeros(b: Timers, s: nat)
    requires s < |b.cb| && s in b.left && 0 < b.cb[s].interval
    ensures Zeros(FireOne(b, s).left) == Zeros(b.left) - {s}
  {
  }

  lemma QuotientBound(x: nat, y: nat)
    requires 0 < y && x < DIVISOR_RANGE
    ensures 0 <= x / y < NO_TIMEOUT
  {
    Modular.MulAtLeast(y, x / y);
  }
}
