/** Round robin among the ready tasks of one priority, as los_timeslice.c does it: the
    end of a slice is kept in 16 bits and compared with the low 16 bits of the tick
    count, for equality. */
module TimeSlice {
  import opened Tasks
  import opened Kernel
  import opened Modular
  import Wheel = TaskWheel

  const UINT16_RANGE: nat := 0x1_0000

  /** `pstTask` and `usTime` of g_stTaskTimeSlice; the time means nothing while there
      is no task. */
  datatype Slice = NoTask | Slice(task: nat, end: nat)

  /** (UINT16)tick + usTout - 1, stored in 16 bits. */
  function SliceEnd(tick: nat, tout: nat): nat {
    (tick % UINT16_RANGE + tout + UINT16_RANGE - 1) % UINT16_RANGE
  }

  function Charged(k: State, slice: Slice, tick: nat, tout: nat): Slice {
    if slice.Slice? && slice.task == k.run then slice else Slice(k.run, SliceEnd(tick, tout))
  }

  predicate Ends(k: State, slice: Slice, tick: nat, tout: nat) {
    Charged(k, slice, tick, tout).end == tick % UINT16_RANGE
  }

  /** What osTimesliceCheck does to the kernel. */
  ghost function AfterCheck(k: State, slice: Slice, tick: nat, tout: nat): (k': State)
    requires Inv(k)
    ensures Inv(k') && k'.wheel == k.wheel
  {
    YieldWheel(k);
    if Ends(k, slice, tick, tout) then Yield(k) else k
  }

  function NextSlice(k: State, slice: Slice, tick: nat, tout: nat): Slice {
    if Ends(k, slice, tick, tout) then NoTask else Charged(k, slice, tick, tout)
  }

  lemma YieldWheel(k: State)
    requires Inv(k)
    ensures Yield(k).wheel == k.wheel
  {
    hide Without;
    RotateOk(k);
    ScheduleOk(Rotate(k));
  }

  /** How many ticks a slice lasts: with a timeout of 0 the 16 bits go all the way round. */
  function Period(tout: nat): nat {
    if tout % UINT16_RANGE == 0 then UINT16_RANGE else tout % UINT16_RANGE
  }

  /** A slice of a 16-bit number of ticks lasts for just that number, but for 0. */
  lemma PeriodIs(tout: nat)
    requires tout < UINT16_RANGE
    ensures Period(tout) == if tout == 0 then 65536 else tout
  {
  }

  // ---------------------------------------------------------------- ticks with no other activity

  datatype Sys = Sys(k: State, slice: Slice, tick: nat)

  /** osTickHandler when the tick releases no task. */
  ghost function QuietTick(y: Sys, tout: nat): Sys
    requires Inv(y.k) && Wheel.Expiring(y.k.wheel, [])
  {
    Sys(Scan(AfterCheck(y.k, y.slice, y.tick + 1, tout), []), NextSlice(y.k, y.slice, y.tick + 1, tout), y.tick + 1)
  }

  ghost predicate QuietStep(y: Sys, y': Sys, tout: nat) {
    Inv(y.k) && Wheel.Expiring(y.k.wheel, []) && y' == QuietTick(y, tout)
  }

  ghost predicate IsQuietRun(states: seq<Sys>, tout: nat) {
    forall i | 0 <= i < |states| - 1 :: QuietStep(states[i], states[i + 1], tout)
  }

  lemma QuietScan(k: State)
    requires Inv(k) && Wheel.Expiring(k.wheel, [])
    ensures Scan(k, []) == k.(wheel := Wheel.TickDown(k.wheel))
  {
    DecrementOk(k);
    assert ExpireAll(k.(wheel := Decrement(k.wheel)), []) == k.(wheel := Decrement(k.wheel));
  }

  /** `l` is the best non-empty ready list, and its head runs. */
  ghost predicate Front(k: State, l: seq<nat>, p: nat) {
    && Inv(k) && k.lock == 0 && p < PRIORITIES
    && l != [] && k.lists[p] == l && k.run == l[0]
    && forall q | 0 <= q < p :: k.lists[q] == []
  }

  function RotateOnce(l: seq<nat>): seq<nat>
    requires l != []
  {
    l[1..] + [l[0]]
  }

  lemma RunPriority(k: State, l: seq<nat>, p: nat)
    requires Front(k, l, p)
    ensures k.tcb[k.run].prio == p == k.link[k.run] && k.St(k.run).ready
  {
    assert l[0] in l && ListOk(k.lists[p], p, k.link) && TaskOk(k, k.run);
  }

  /** A yield among several equals moves the head to the end and runs the next. */
  lemma YieldRotates(k: State, l: seq<nat>, p: nat)
    requires Front(k, l, p) && 2 <= |l|
    ensures Front(Yield(k), RotateOnce(l), p)
  {
    RunPriority(k, l, p);
    RotateOk(k);
    var k1 := Rotate(k);
    assert k1.lists[p] == RotateOnce(l) && forall q | 0 <= q < p :: k1.lists[q] == [];
    ScheduleOk(k1);
    hide Inv, InvBeforeSchedule, LinksOk, TaskOk;
    BestIsFirst(Yield(k), RotateOnce(l), p);
  }

  lemma BestIsFirst(k: State, l: seq<nat>, p: nat)
    requires HeadsBest(k, k.run) && p < PRIORITIES <= |k.lists| && k.lists[p] == l && l != []
    requires forall q | 0 <= q < p :: k.lists[q] == []
    ensures k.run == l[0]
  {
  }

  // ---------------------------------------------------------------- rotation

  /** The slice on record, if any, belongs to another task than `t`. */
  predicate NotOf(slice: Slice, t: nat) {
    slice.Slice? ==> slice.task != t
  }

  /** `r` ticks into a slice that began after tick `start`. */
  ghost predicate Phase(y: Sys, l: seq<nat>, p: nat, start: nat, r: nat, tout: nat) {
    && Front(y.k, l, p) && y.tick == start + r
    && (if r == 0 then NotOf(y.slice, l[0]) else y.slice == Slice(l[0], (start + tout) % UINT16_RANGE))
  }

  lemma Apart(x: int, y: int, m: int)
    requires 0 < y - x < m
    ensures x % m != y % m
  {
    if x % m == y % m {
      var q, q' := x / m, y / m;
      assert (q' - q) * m == q' * m - q * m == y - x;
      if q' > q {
        MulAtLeast(q' - q, m);
      }
    }
  }

  lemma PeriodShift(start: nat, tout: nat)
    ensures 0 < Period(tout) <= UINT16_RANGE
    ensures (start + tout) % UINT16_RANGE == (start + Period(tout)) % UINT16_RANGE
  {
    var k := (tout - Period(tout)) / UINT16_RANGE;
    ModShift(start + tout, start + Period(tout), UINT16_RANGE, k);
  }

  /** The 16-bit comparison succeeds on the last tick of the slice and on no other,
      however often the tick count has wrapped. */
  lemma EndsOnTime(start: nat, r: nat, tout: nat)
    requires r < Period(tout)
    ensures SliceEnd(start + 1, tout) == (start + tout) % UINT16_RANGE
    ensures (start + tout) % UINT16_RANGE == (start + r + 1) % UINT16_RANGE <==> r + 1 == Period(tout)
  {
    ModShift((start + 1) % UINT16_RANGE + tout + UINT16_RANGE - 1, start + tout, UINT16_RANGE, 1 - (start + 1) / UINT16_RANGE);
    PeriodShift(start, tout);
    if r + 1 < Period(tout) {
      Apart(start + r + 1, start + Period(tout), UINT16_RANGE);
    }
  }

  lemma NextPhase(y: Sys, y': Sys, l: seq<nat>, p: nat, start: nat, r: nat, tout: nat)
    requires QuietStep(y, y', tout) && Phase(y, l, p, start, r, tout) && 2 <= |l| && r < Period(tout)
    ensures r + 1 < Period(tout) ==> Phase(y', l, p, start, r + 1, tout)
    ensures r + 1 == Period(tout) ==> Phase(y', RotateOnce(l), p, start + Period(tout), 0, tout)
  {
    hide Yield, Scan, Inv, Front, SliceEnd, Period;
    CheckInPhase(y, l, p, start, r, tout);
    var k1 := AfterCheck(y.k, y.slice, y.tick + 1, tout);
    QuietScan(k1);
    StillFront(k1, y'.k, if r + 1 == Period(tout) then RotateOnce(l) else l, p);
  }

  lemma CheckInPhase(y: Sys, l: seq<nat>, p: nat, start: nat, r: nat, tout: nat)
    requires Inv(y.k) && Phase(y, l, p, start, r, tout) && 2 <= |l| && r < Period(tout)
    ensures Ends(y.k, y.slice, y.tick + 1, tout) <==> r + 1 == Period(tout)
    ensures r + 1 < Period(tout) ==> NextSlice(y.k, y.slice, y.tick + 1, tout) == Slice(l[0], (start + tout) % UINT16_RANGE)
    ensures Front(AfterCheck(y.k, y.slice, y.tick + 1, tout), if r + 1 == Period(tout) then RotateOnce(l) else l, p)
  {
    hide Yield, Inv, SliceEnd, Period;
    EndsOnTime(start, r, tout);
    YieldRotates(y.k, l, p);
  }

  lemma StillFront(k: State, k': State, l: seq<nat>, p: nat)
    requires Front(k, l, p) && Inv(k') && k' == k.(wheel := k'.wheel)
    ensures Front(k', l, p)
  {
    hide Inv;
  }

  function Turn(l: seq<nat>, j: nat): (t: seq<nat>)
    requires l != []
    ensures |t| == |l|
  {
    if j == 0 then l else RotateOnce(Turn(l, j - 1))
  }

  lemma {:induction false} TurnAt(l: seq<nat>, j: nat, i: nat)
    requires i < |l|
    ensures Turn(l, j)[i] == l[(i + j) % |l|]
  {
    if j == 0 {
      Small(i, |l|);
    } else if i == |l| - 1 {
      TurnAt(l, j - 1, 0);
      Around(j - 1, |l|);
      assert i + j == (j - 1) + |l|;
    } else {
      TurnAt(l, j - 1, i + 1);
    }
  }

  lemma Small(i: nat, n: nat)
    requires i < n
    ensures i % n == i
  {
    ModUnique(i, n, 0, i);
  }

  lemma Around(i: nat, n: nat)
    requires 0 < n
    ensures (i + n) % n == i % n
  {
    ModShift(i + n, i, n, 1);
  }

  /** With several ready tasks at the top priority and nothing else going on, counting
      from the end of a slice, or from any point at which the slice on record is that of
      another task: after `j` periods and `r` more ticks the ready list has
      been turned by exactly `j`, and its head runs. */
  lemma {:induction false} RotatesEveryPeriod(states: seq<Sys>, l: seq<nat>, p: nat, tout: nat, j: nat, r: nat)
    requires IsQuietRun(states, tout) && 2 <= |l| && r < Period(tout) && j * Period(tout) + r < |states|
    requires Front(states[0].k, l, p) && NotOf(states[0].slice, l[0])
    ensures Front(states[j * Period(tout) + r].k, Turn(l, j), p)
    ensures Phase(states[j * Period(tout) + r], Turn(l, j), p, states[0].tick + j * Period(tout), r, tout)
    decreases j, r
  {
    hide QuietStep, Phase, Turn, Front, Period;
    var n, start := j * Period(tout) + r, states[0].tick;
    if r > 0 {
      RotatesEveryPeriod(states, l, p, tout, j, r - 1);
      assert QuietStep(states[n - 1], states[n - 1 + 1], tout);
      NextPhase(states[n - 1], states[n], Turn(l, j), p, start + j * Period(tout), r - 1, tout);
    } else if j > 0 {
      LastOfPeriod(j, Period(tout));
      RotatesEveryPeriod(states, l, p, tout, j - 1, Period(tout) - 1);
      assert QuietStep(states[n - 1], states[n - 1 + 1], tout);
      NextPhase(states[n - 1], states[n], Turn(l, j - 1), p, start + (j - 1) * Period(tout), Period(tout) - 1, tout);
      assert Turn(l, j) == RotateOnce(Turn(l, j - 1)) by { TurnNext(l, j); }
    } else {
      FirstPhase(states[0], l, p, tout);
    }
    PhaseFront(states[n], Turn(l, j), p, start + j * Period(tout), r, tout);
  }

  lemma TurnNext(l: seq<nat>, j: nat)
    requires l != [] && 0 < j
    ensures Turn(l, j) == RotateOnce(Turn(l, j - 1))
  {
  }

  lemma LastOfPeriod(j: nat, T: nat)
    requires 0 < j && 0 < T
    ensures (j - 1) * T + (T - 1) == j * T - 1 && (j - 1) * T + T == j * T
  {
  }

  lemma FirstPhase(y: Sys, l: seq<nat>, p: nat, tout: nat)
    requires Front(y.k, l, p) && NotOf(y.slice, l[0])
    ensures Turn(l, 0) == l && Phase(y, Turn(l, 0), p, y.tick, 0, tout)
  {
  }

  lemma PhaseFront(y: Sys, l: seq<nat>, p: nat, start: nat, r: nat, tout: nat)
    requires Phase(y, l, p, start, r, tout)
    ensures Front(y.k, l, p)
  {
  }

  /** After as many periods as there are tasks the list is back in its first order. */
  lemma FullRound(states: seq<Sys>, l: seq<nat>, p: nat, tout: nat)
    requires IsQuietRun(states, tout) && 2 <= |l| && |l| * Period(tout) < |states|
    requires Front(states[0].k, l, p) && NotOf(states[0].slice, l[0])
    ensures Front(states[|l| * Period(tout)].k, l, p)
  {
    RotatesEveryPeriod(states, l, p, tout, |l|, 0);
    forall i | 0 <= i < |l| ensures Turn(l, |l|)[i] == l[i] {
      TurnAt(l, |l|, i);
      Around(i, |l|);
      Small(i, |l|);
    }
    assert Turn(l, |l|) == l;
  }
}
