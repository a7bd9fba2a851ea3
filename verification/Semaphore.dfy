/** The counting semaphores of los_sem.c. */
module Semaphore {

  const COUNTING_MAX: nat := 0xFFFF
  const BINARY_MAX: nat := 1

  datatype Sem = Sem(used: bool, count: nat, max: nat, waiters: seq<nat>)

  datatype Ret = Taken | Granted | Raised | Invalid | Unavailable | PendInterr | PendInLock | Blocked | Overflow | Pended | Deleted

  // ---------------------------------------------------------------- calls

  function PendRet(s: Sem, wait: bool, interrupt: bool, locked: bool): Ret {
    if !s.used then Invalid
    else if s.count > 0 then Taken
    else if !wait then Unavailable
    else if interrupt then PendInterr
    else if locked then PendInLock
    else Blocked
  }

  function Pend(s: Sem, t: nat, wait: bool, interrupt: bool, locked: bool): Sem {
    match PendRet(s, wait, interrupt, locked)
    case Taken => s.(count := s.count - 1)
    case Blocked => s.(waiters := s.waiters + [t])
    case _ => s
  }

  function PostRet(s: Sem): Ret {
    if !s.used then Invalid
    else if s.max == s.count then Overflow
    else if s.waiters != [] then Granted
    else Raised
  }

  function Post(s: Sem): Sem {
    match PostRet(s)
    case Granted => s.(waiters := s.waiters[1..])
    case Raised => s.(count := s.count + 1)
    case _ => s
  }

  function DeleteRet(s: Sem): Ret {
    if !s.used then Invalid else if s.waiters != [] then Pended else Deleted
  }

  /** Tasks wait only while no token is left, and there are never too many tokens. */
  ghost predicate Ok(s: Sem) {
    s.count <= s.max && (s.waiters != [] ==> s.used && s.count == 0)
  }

  /** With waiters present a post is refused as an overflow exactly if the semaphore
      was created with maximum 0; LOS_SemCreate and LOS_BinarySemCreate never do that. */
  lemma OverflowWithWaiters(s: Sem)
    requires Ok(s) && s.waiters != []
    ensures PostRet(s) == Overflow <==> s.max == 0
    ensures s.max == COUNTING_MAX || s.max == BINARY_MAX ==> PostRet(s) == Granted
  {
  }

  /** A pend, field by field: a token that is there is taken whatever the timeout, also
      from an interrupt and with the scheduler locked. */
  lemma PendAnswers(s: Sem, t: nat, wait: bool, interrupt: bool, locked: bool)
    ensures var r, s' := PendRet(s, wait, interrupt, locked), Pend(s, t, wait, interrupt, locked);
      if !s.used then r == Invalid && s' == s
      else if s.count > 0 then r == Taken && s' == Sem(true, s.count - 1, s.max, s.waiters)
      else if !wait then r == Unavailable && s' == s
      else if interrupt then r == PendInterr && s' == s
      else if locked then r == PendInLock && s' == s
      else r == Blocked && s' == Sem(true, 0, s.max, s.waiters + [t])
  {
  }

  /** A post, field by field: below the maximum every post counts, for the longest waiter
      or for the count; at the maximum nothing changes. */
  lemma PostAnswers(s: Sem)
    requires Ok(s)
    ensures var r, s' := PostRet(s), Post(s);
      && (s' == s <==> !s.used || s.count == s.max)
      && (!s.used ==> r == Invalid)
      && (s.used && s.count == s.max ==> r == Overflow)
      && (s.used && s.count < s.max && s.waiters == [] ==> r == Raised && s' == Sem(true, s.count + 1, s.max, []))
      && (s.used && s.count < s.max && s.waiters != [] ==>
            r == Granted && s'.count == s.count == 0 && s'.max == s.max && s'.used && [s.waiters[0]] + s'.waiters == s.waiters)
  {
  }

  lemma DeleteAnswers(s: Sem)
    ensures DeleteRet(s) == (if !s.used then Invalid else if s.waiters != [] then Pended else Deleted)
    ensures Next(s, EvDelete) == if s.used && s.waiters == [] then s.(used := false) else s
  {
  }

  // ---------------------------------------------------------------- runs

  datatype Event =
    | EvPend(task: nat, wait: bool, interrupt: bool, locked: bool)
    | EvPost
    | EvExpire(i: nat)
    | EvDelete

  predicate Enabled(s: Sem, e: Event) {
    e.EvExpire? ==> e.i < |s.waiters|
  }

  function Next(s: Sem, e: Event): Sem
    requires Enabled(s, e)
  {
    match e
    case EvPend(t, wait, interrupt, locked) => Pend(s, t, wait, interrupt, locked)
    case EvPost => Post(s)
    case EvExpire(i) => s.(waiters := s.waiters[..i] + s.waiters[i + 1..])
    case EvDelete => if DeleteRet(s) == Deleted then s.(used := false) else s
  }

  /** A token is handed out by the step: taken at once, or granted to a waiter. */
  predicate Gives(s: Sem, e: Event) {
    (e.EvPend? && PendRet(s, e.wait, e.interrupt, e.locked) == Taken) || (e.EvPost? && PostRet(s) == Granted)
  }

  /** A token is brought in by the step. */
  predicate Brings(s: Sem, e: Event) {
    e.EvPost? && PostRet(s) in {Granted, Raised}
  }

  ghost predicate IsRun(states: seq<Sem>, events: seq<Event>) {
    && |states| == |events| + 1
    && forall i | 0 <= i < |events| :: Enabled(states[i], events[i]) && states[i + 1] == Next(states[i], events[i])
  }

  function Given(states: seq<Sem>, events: seq<Event>, n: nat): nat
    requires n <= |events| < |states|
  {
    if n == 0 then 0 else Given(states, events, n - 1) + if Gives(states[n - 1], events[n - 1]) then 1 else 0
  }

  function Posted(states: seq<Sem>, events: seq<Event>, n: nat): nat
    requires n <= |events| < |states|
  {
    if n == 0 then 0 else Posted(states, events, n - 1) + if Brings(states[n - 1], events[n - 1]) then 1 else 0
  }

  /** Tokens are conserved over every run: those there at first and those posted
      successfully are those given out and those still there. */
  lemma {:induction false} TokensConserved(states: seq<Sem>, events: seq<Event>, n: nat)
    requires IsRun(states, events) && Ok(states[0]) && n <= |events|
    ensures Ok(states[n]) && states[n].max == states[0].max
    ensures states[0].count + Posted(states, events, n) == Given(states, events, n) + states[n].count
  {
    if n > 0 {
      TokensConserved(states, events, n - 1);
      assert states[n - 1 + 1] == Next(states[n - 1], events[n - 1]);
    }
  }

  function ServedBy(s: Sem, e: Event): seq<nat> {
    if e.EvPost? && PostRet(s) == Granted then [s.waiters[0]] else []
  }

  function JoinedBy(s: Sem, e: Event): seq<nat> {
    if e.EvPend? && PendRet(s, e.wait, e.interrupt, e.locked) == Blocked then [e.task] else []
  }

  /** Tasks that leave the wait list by a grant, in order. */
  function Served(states: seq<Sem>, events: seq<Event>, n: nat): seq<nat>
    requires n <= |events| < |states|
  {
    if n == 0 then []
    else Served(states, events, n - 1) + ServedBy(states[n - 1], events[n - 1])
  }

  /** Tasks that joined the wait list, in order. */
  function Joined(states: seq<Sem>, events: seq<Event>, n: nat): seq<nat>
    requires n <= |events| < |states|
  {
    if n == 0 then []
    else Joined(states, events, n - 1) + JoinedBy(states[n - 1], events[n - 1])
  }

  /** `a` is `b` with some members left out. */
  ghost predicate Sub(a: seq<nat>, b: seq<nat>)
    decreases b
  {
    if a == [] then true
    else if b == [] then false
    else (a[0] == b[0] && Sub(a[1..], b[1..])) || Sub(a, b[1..])
  }

  lemma {:induction false} SubSame(a: seq<nat>)
    ensures Sub(a, a)
  {
    if a != [] {
      SubSame(a[1..]);
    }
  }

  lemma {:induction false} SubSnoc(a: seq<nat>, b: seq<nat>, x: nat)
    requires Sub(a, b)
    ensures Sub(a + [x], b + [x])
    decreases b
  {
    if b == [] {
      assert a + [x] == [x] == b + [x];
      SubSame([x]);
    } else {
      assert (b + [x])[1..] == b[1..] + [x];
      if a != [] && a[0] == b[0] && Sub(a[1..], b[1..]) {
        assert (a + [x])[1..] == a[1..] + [x];
        SubSnoc(a[1..], b[1..], x);
      } else {
        SubSnoc(a, b[1..], x);
      }
    }
  }

  lemma {:induction false} SubDrop(a: seq<nat>, b: seq<nat>, i: nat)
    requires Sub(a, b) && i < |a|
    ensures Sub(a[..i] + a[i + 1..], b)
    decreases b
  {
    var d := a[..i] + a[i + 1..];
    if a[0] == b[0] && Sub(a[1..], b[1..]) {
      if i == 0 {
        assert d == a[1..];
        if d != [] {
          assert Sub(d, b[1..]);
        }
      } else {
        SubDrop(a[1..], b[1..], i - 1);
        assert d[1..] == a[1..][..i - 1] + a[1..][i..];
      }
    } else {
      SubDrop(a, b[1..], i);
    }
  }

  /** How one step changes who has been served followed by who still waits. */
  lemma ServedStep(s: Sem, e: Event, served: seq<nat>)
    requires Ok(s) && Enabled(s, e)
    ensures Ok(Next(s, e))
    ensures !e.EvExpire? ==> (served + ServedBy(s, e)) + Next(s, e).waiters == (served + s.waiters) + JoinedBy(s, e)
    ensures e.EvExpire? ==>
              && JoinedBy(s, e) == [] == ServedBy(s, e) && e.i < |s.waiters|
              && served + Next(s, e).waiters == (served + s.waiters)[..|served| + e.i] + (served + s.waiters)[|served| + e.i + 1..]
    ensures JoinedBy(s, e) == [] || JoinedBy(s, e) == [JoinedBy(s, e)[0]]
  {
  }

  lemma OrderStep(s: Sem, e: Event, served: seq<nat>, came: seq<nat>)
    requires Ok(s) && Enabled(s, e) && Sub(served + s.waiters, came)
    ensures Sub((served + ServedBy(s, e)) + Next(s, e).waiters, came + JoinedBy(s, e))
    ensures !e.EvExpire? && served + s.waiters == came ==> (served + ServedBy(s, e)) + Next(s, e).waiters == came + JoinedBy(s, e)
  {
    hide Ok, Next, Enabled, ServedBy, JoinedBy, Sub;
    ServedStep(s, e, served);
    assert came + [] == came && served + [] == served && (served + s.waiters) + [] == served + s.waiters;
    if e.EvExpire? {
      SubDrop(served + s.waiters, came, |served| + e.i);
    } else if JoinedBy(s, e) != [] {
      SubSnoc(served + s.waiters, came, JoinedBy(s, e)[0]);
    }
  }

  ghost predicate NoTimeouts(events: seq<Event>, n: nat)
    requires n <= |events|
  {
    forall i | 0 <= i < n :: !events[i].EvExpire?
  }

  /** Those served, in order, followed by those still waiting are those who came, in
      order, less some whose wait has timed out: nobody overtakes anybody. */
  lemma {:induction false} ServedInOrder(states: seq<Sem>, events: seq<Event>, n: nat)
    requires IsRun(states, events) && Ok(states[0]) && n <= |events|
    ensures Ok(states[n])
    ensures Sub(Served(states, events, n) + states[n].waiters, states[0].waiters + Joined(states, events, n))
    ensures NoTimeouts(events, n) ==>
              Served(states, events, n) + states[n].waiters == states[0].waiters + Joined(states, events, n)
  {
    hide Ok, Next, Enabled, ServedBy, JoinedBy, Sub;
    if n == 0 {
      SubSame(states[0].waiters);
      assert [] + states[0].waiters == states[0].waiters == states[0].waiters + [];
    } else {
      ServedInOrder(states, events, n - 1);
      var s, e := states[n - 1], events[n - 1];
      assert states[n - 1 + 1] == Next(s, e) && Enabled(s, e);
      StepOk(s, e);
      OrderStep(s, e, Served(states, events, n - 1), states[0].waiters + Joined(states, events, n - 1));
      Regroup(states[0].waiters, Joined(states, events, n - 1), JoinedBy(s, e));
    }
  }

  lemma Regroup(a: seq<nat>, b: seq<nat>, c: seq<nat>)
    ensures (a + b) + c == a + (b + c)
  {
  }

  lemma StepOk(s: Sem, e: Event)
    requires Ok(s) && Enabled(s, e)
    ensures Ok(Next(s, e))
  {
  }

  // ---------------------------------------------------------------- control block

  class SemCb {
    var used: bool
    var count: nat          // usSemCount
    var max: nat            // usMaxSemCount
    var waiters: seq<nat>   // stSemList

    ghost function Abs(): Sem
      reads this
    {
      Sem(used, count, max, waiters)
    }

    ghost predicate Valid()
      reads this
    {
      Ok(Abs())
    }

    constructor ()
      ensures Valid() && !used
    {
      used, count, max, waiters := false, 0, 0, [];
    }

    /** osSemCreate on a free control block. */
    method SemCreate(count: nat, max: nat) returns (r: Ret)
      requires Valid() && !used
      modifies this
      ensures Valid()
      ensures count > max ==> r == Overflow && Abs() == old(Abs())
      ensures count <= max ==> r == Raised && Abs() == Sem(true, count, max, [])
    {
      if count > max { return Overflow; }
      used := true;
      this.count, this.max, waiters := count, max, [];
      r := Raised;
    }

    /** LOS_SemPend up to where it returns or blocks. */
    method SemPend(t: nat, wait: bool, interrupt: bool, locked: bool) returns (r: Ret)
      requires Valid()
      modifies this
      ensures Valid() && r == PendRet(old(Abs()), wait, interrupt, locked)
      ensures Abs() == Pend(old(Abs()), t, wait, interrupt, locked)
    {
      if !used { return Invalid; }
      if count > 0 {
        count := count - 1;
        return Taken;
      }
      if !wait { return Unavailable; }
      if interrupt { return PendInterr; }
      if locked { return PendInLock; }
      waiters := waiters + [t];
      r := Blocked;
    }

    /** LOS_SemPost; `woken` is the task that is granted the token. */
    method SemPost() returns (r: Ret, woken: seq<nat>)
      requires Valid()
      modifies this
      ensures Valid() && r == PostRet(old(Abs())) && Abs() == Post(old(Abs()))
      ensures woken + waiters == old(waiters)
    {
      woken := [];
      if !used { return Invalid, woken; }
      if max == count { return Overflow, woken; }
      if waiters != [] {
        woken := [waiters[0]];
        waiters := waiters[1..];
        return Granted, woken;
      }
      count := count + 1;
      r := Raised;
    }

    /** LOS_SemDelete. */
    method SemDelete() returns (r: Ret)
      requires Valid()
      modifies this
      ensures Valid() && r == DeleteRet(old(Abs())) && Abs() == Next(old(Abs()), EvDelete)
    {
      if !used { return Invalid; }
      if waiters != [] { return Pended; }
      used := false;
      r := Deleted;
    }
  }
}
