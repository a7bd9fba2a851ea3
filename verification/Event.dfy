/** The event groups of los_event.c: a 32-bit word of event bits and the tasks that
    wait for some or for all bits of a mask.  A writer wakes tasks after looking at
    the bits it writes only, and a woken task polls the word again when it runs. */
module Event {

  const WAITMODE_CLR: bv32 := 1
  const WAITMODE_OR: bv32 := 2
  const WAITMODE_AND: bv32 := 4
  const ERRTYPE_ERROR: bv32 := 0x0200_0000

  datatype Waiter = Waiter(task: nat, mask: bv32, mode: bv32)

  /** `woken` holds the tasks that were woken by a write and have not run yet. */
  datatype Group = Group(id: bv32, waiters: seq<Waiter>, woken: seq<Waiter>)

  datatype Ret = Got(bits: bv32) | MaskInvalid | SetBitInvalid | FlagsInvalid | ReadInInterrupt | ReadInLock | Blocked | Done

  // ---------------------------------------------------------------- words of bits

  predicate AnyOf(id: bv32, mask: bv32) { id & mask != 0 }

  predicate AllOf(id: bv32, mask: bv32) { id & mask == mask }

  function Common(id: bv32, mask: bv32): bv32 { id & mask }

  function Set(id: bv32, bits: bv32): bv32 { id | bits }

  function Off(id: bv32, bits: bv32): bv32 { id & !bits }

  /** Every bit of `a` is one of `b`. */
  predicate Within(a: bv32, b: bv32) { a & b == a }

  /** The condition a reader waits for. */
  predicate Satisfied(id: bv32, mask: bv32, mode: bv32) {
    if AnyOf(mode, WAITMODE_OR) then AnyOf(id, mask) else mask != 0 && AllOf(id, mask)
  }

  /** Bits only go away: what holds afterwards held before. */
  lemma FewerBits(id: bv32, id': bv32, mask: bv32, mode: bv32)
    requires Within(id', id) && Satisfied(id', mask, mode)
    ensures Satisfied(id, mask, mode)
  {
    FewerAny(id, id', mask);
    FewerAll(id, id', mask);
    hide AnyOf, AllOf, Within;
  }

  lemma FewerAny(id: bv32, id': bv32, mask: bv32)
    ensures Within(id', id) && AnyOf(id', mask) ==> AnyOf(id, mask)
  {
  }

  lemma FewerAll(id: bv32, id': bv32, mask: bv32)
    ensures Within(id', id) && AllOf(id', mask) ==> AllOf(id, mask)
  {
  }

  /** The bits of the mask stay: what held before holds afterwards. */
  lemma KeptBits(id: bv32, id': bv32, mask: bv32, mode: bv32)
    requires Within(Common(id, mask), id') && Satisfied(id, mask, mode)
    ensures Satisfied(id', mask, mode)
  {
    KeptAny(id, id', mask);
    KeptAll(id, id', mask);
    hide AnyOf, AllOf, Within, Common;
  }

  lemma KeptAny(id: bv32, id': bv32, mask: bv32)
    ensures Within(Common(id, mask), id') && AnyOf(id, mask) ==> AnyOf(id', mask)
  {
  }

  lemma KeptAll(id: bv32, id': bv32, mask: bv32)
    ensures Within(Common(id, mask), id') && AllOf(id, mask) ==> AllOf(id', mask)
  {
  }

  lemma AnyNew(id: bv32, events: bv32, mask: bv32)
    requires !AnyOf(id, mask)
    ensures AnyOf(Set(id, events), mask) <==> AnyOf(mask, events)
  {
  }

  lemma SomeBit(id: bv32, mask: bv32)
    ensures AnyOf(id, mask) <==> Common(id, mask) != 0
    ensures AllOf(id, mask) && mask != 0 ==> Common(id, mask) != 0
  {
  }

  lemma OffTakes(id: bv32, bits: bv32)
    ensures Within(Off(id, bits), id) && Within(Common(id, bits), id) && Within(id, id)
  {
  }

  // ---------------------------------------------------------------- LOS_EventPoll

  function PollRet(id: bv32, mask: bv32, mode: bv32): bv32 {
    if Satisfied(id, mask, mode) then Common(id, mask) else 0
  }

  function PollId(id: bv32, mask: bv32, mode: bv32): bv32 {
    if PollRet(id, mask, mode) != 0 && AnyOf(WAITMODE_CLR, mode) then Off(id, PollRet(id, mask, mode)) else id
  }

  /** A poll succeeds exactly if the condition holds, and it takes bits away only. */
  lemma PollMeans(id: bv32, mask: bv32, mode: bv32)
    ensures PollRet(id, mask, mode) != 0 <==> Satisfied(id, mask, mode)
    ensures Within(PollId(id, mask, mode), id)
  {
    SomeBit(id, mask);
    OffTakes(id, PollRet(id, mask, mode));
    hide AnyOf, AllOf, Common, Off, Within;
  }

  /** It returns bits of the mask that were set; no error code looks like them. */
  lemma PollBits(id: bv32, mask: bv32, mode: bv32)
    ensures Within(PollRet(id, mask, mode), id) && Within(PollRet(id, mask, mode), mask)
    ensures !AnyOf(mask, ERRTYPE_ERROR) ==> !AnyOf(PollRet(id, mask, mode), ERRTYPE_ERROR)
  {
    CommonBits(id, mask);
    hide AnyOf, Common, Within, Satisfied;
  }

  lemma CommonBits(id: bv32, mask: bv32)
    ensures Within(Common(id, mask), id) && Within(Common(id, mask), mask) && Within(0, id) && Within(0, mask)
    ensures !AnyOf(mask, ERRTYPE_ERROR) ==> !AnyOf(Common(id, mask), ERRTYPE_ERROR)
    ensures !AnyOf(0, ERRTYPE_ERROR)
  {
  }

  // ---------------------------------------------------------------- LOS_EventRead

  predicate FlagsOk(mode: bv32) {
    && !(AnyOf(mode, WAITMODE_OR) && AnyOf(mode, WAITMODE_AND))
    && !AnyOf(mode, !(WAITMODE_OR | WAITMODE_AND | WAITMODE_CLR))
    && AnyOf(mode, WAITMODE_OR | WAITMODE_AND)
  }

  lemma OneFlag(mode: bv32)
    requires FlagsOk(mode)
    ensures AnyOf(mode, WAITMODE_OR) <==> !AnyOf(mode, WAITMODE_AND)
  {
  }

  function ReadRet(g: Group, mask: bv32, mode: bv32, wait: bool, interrupt: bool, locked: bool): Ret {
    if mask == 0 then MaskInvalid
    else if AnyOf(mask, ERRTYPE_ERROR) then SetBitInvalid
    else if !FlagsOk(mode) then FlagsInvalid
    else if interrupt then ReadInInterrupt
    else if PollRet(g.id, mask, mode) != 0 || !wait then Got(PollRet(g.id, mask, mode))
    else if locked then ReadInLock
    else Blocked
  }

  /** Up to the point where the call returns or blocks. */
  function Read(g: Group, t: nat, mask: bv32, mode: bv32, wait: bool, interrupt: bool, locked: bool): Group {
    match ReadRet(g, mask, mode, wait, interrupt, locked)
    case Got(_) => g.(id := PollId(g.id, mask, mode))
    case Blocked => g.(waiters := g.waiters + [Waiter(t, mask, mode)])
    case _ => g
  }

  function Drop(ws: seq<Waiter>, i: nat): seq<Waiter>
    requires i < |ws|
  {
    ws[..i] + ws[i + 1..]
  }

  /** A woken task runs and polls again. */
  function Resume(g: Group, i: nat): Group
    requires i < |g.woken|
  {
    g.(id := PollId(g.id, g.woken[i].mask, g.woken[i].mode), woken := Drop(g.woken, i))
  }

  function ResumeRet(g: Group, i: nat): bv32
    requires i < |g.woken|
  {
    PollRet(g.id, g.woken[i].mask, g.woken[i].mode)
  }

  // ---------------------------------------------------------------- LOS_EventWrite

  /** The test of LOS_EventWrite: for any of the bits it looks at the newly written
      ones, for all of them at the whole word. */
  predicate Hit(w: Waiter, events: bv32, id: bv32) {
    || (AnyOf(w.mode, WAITMODE_OR) && AnyOf(w.mask, events))
    || (AnyOf(w.mode, WAITMODE_AND) && AllOf(id, w.mask))
  }

  /** The tasks whose condition holds (or does not hold) on `id`, in order. */
  function Select(ws: seq<Waiter>, id: bv32, holds: bool): seq<Waiter> {
    if ws == [] then []
    else
      var w := ws[|ws| - 1];
      Select(ws[..|ws| - 1], id, holds) + if Satisfied(id, w.mask, w.mode) == holds then [w] else []
  }

  function WriteRet(events: bv32): Ret {
    if AnyOf(events, ERRTYPE_ERROR) then SetBitInvalid else Done
  }

  /** What a write is for: set the bits, wake whom they satisfy. */
  function Write(g: Group, events: bv32): Group {
    if WriteRet(events) == SetBitInvalid then g
    else
      var id := Set(g.id, events);
      Group(id, Select(g.waiters, id, false), g.woken + Select(g.waiters, id, true))
  }

  // ---------------------------------------------------------------- no lost wake-up

  predicate Proper(w: Waiter) {
    w.mask != 0 && !AnyOf(w.mask, ERRTYPE_ERROR) && FlagsOk(w.mode)
  }

  /** No task sleeps although its condition holds. */
  ghost predicate Ok(g: Group) {
    && (forall w <- g.waiters :: Proper(w) && !Satisfied(g.id, w.mask, w.mode))
    && (forall w <- g.woken :: Proper(w))
  }

  /** Where no waiter was satisfied before, the test of LOS_EventWrite is right: it
      wakes exactly those for whom a poll of the whole word would now succeed. */
  lemma WriteTestExact(w: Waiter, events: bv32, id: bv32)
    requires Proper(w) && !Satisfied(id, w.mask, w.mode)
    ensures Hit(w, events, Set(id, events)) <==> Satisfied(Set(id, events), w.mask, w.mode)
    ensures Hit(w, events, Set(id, events)) <==> PollRet(Set(id, events), w.mask, w.mode) != 0
  {
    OneFlag(w.mode);
    hide AnyOf, AllOf, FlagsOk, Set, PollRet;
    if AnyOf(w.mode, WAITMODE_OR) {
      AnyNew(id, events, w.mask);
    }
    PollMeans(Set(id, events), w.mask, w.mode);
  }

  /** Without the invariant the test is wrong: a task waiting for any of two bits of
      which one is already set is not woken by writing a third. */
  lemma WriteTestNeedsInvariant()
    ensures var w := Waiter(0, 3, WAITMODE_OR);
      Proper(w) && !Hit(w, 4, Set(1, 4)) && PollRet(Set(1, 4), w.mask, w.mode) != 0
  {
  }

  lemma {:induction false} SelectMembers(ws: seq<Waiter>, id: bv32, holds: bool)
    ensures forall w :: w in Select(ws, id, holds) <==> w in ws && Satisfied(id, w.mask, w.mode) == holds
    ensures |Select(ws, id, holds)| + |Select(ws, id, !holds)| == |ws|
  {
    hide Satisfied;
    if ws != [] {
      var front, w := ws[..|ws| - 1], ws[|ws| - 1];
      SelectMembers(front, id, holds);
      assert ws == front + [w];
    }
  }

  // ---------------------------------------------------------------- steps and runs

  datatype Step =
    | Reads(task: nat, mask: bv32, mode: bv32, wait: bool, interrupt: bool, locked: bool)
    | Resumes(i: nat)
    | Expires(i: nat)
    | Polls(mask: bv32, mode: bv32)
    | Writes(events: bv32)
    | Clears(events: bv32)

  predicate Enabled(g: Group, e: Step) {
    match e
    case Resumes(i) => i < |g.woken|
    case Expires(i) => i < |g.waiters|
    case _ => true
  }

  function Next(g: Group, e: Step): Group
    requires Enabled(g, e)
  {
    match e
    case Reads(t, mask, mode, wait, interrupt, locked) => Read(g, t, mask, mode, wait, interrupt, locked)
    case Resumes(i) => Resume(g, i)
    case Expires(i) => g.(waiters := Drop(g.waiters, i))
    case Polls(mask, mode) => g.(id := PollId(g.id, mask, mode))
    case Writes(events) => Write(g, events)
    case Clears(events) => g.(id := Common(g.id, events))
  }

  lemma LessOk(g: Group, g': Group)
    requires Ok(g) && Within(g'.id, g.id)
    requires forall w <- g'.waiters :: w in g.waiters
    requires forall w <- g'.woken :: w in g.woken
    ensures Ok(g')
  {
    hide Satisfied, Within, Proper;
    forall w <- g'.waiters ensures Proper(w) && !Satisfied(g'.id, w.mask, w.mode) {
      if Satisfied(g'.id, w.mask, w.mode) {
        FewerBits(g.id, g'.id, w.mask, w.mode);
      }
    }
  }

  lemma ReadOk(g: Group, t: nat, mask: bv32, mode: bv32, wait: bool, interrupt: bool, locked: bool)
    requires Ok(g)
    ensures Ok(Read(g, t, mask, mode, wait, interrupt, locked))
  {
    hide Satisfied, Within, PollRet, PollId, FlagsOk, AnyOf;
    PollMeans(g.id, mask, mode);
    if ReadRet(g, mask, mode, wait, interrupt, locked).Got? {
      LessOk(g, Read(g, t, mask, mode, wait, interrupt, locked));
    }
  }

  lemma WriteOk(g: Group, events: bv32)
    requires Ok(g)
    ensures Ok(Write(g, events))
  {
    hide Satisfied, Proper, AnyOf, Set, Select;
    var id := Set(g.id, events);
    SelectMembers(g.waiters, id, false);
    SelectMembers(g.waiters, id, true);
  }

  /** Every step keeps the invariant. */
  lemma StepOk(g: Group, e: Step)
    requires Ok(g) && Enabled(g, e)
    ensures Ok(Next(g, e))
  {
    hide Ok, Within, PollId, Write, Read, Common;
    match e
    case Reads(t, mask, mode, wait, interrupt, locked) => ReadOk(g, t, mask, mode, wait, interrupt, locked);
    case Resumes(i) =>
      PollMeans(g.id, g.woken[i].mask, g.woken[i].mode);
      LessOk(g, Resume(g, i));
    case Expires(i) =>
      OffTakes(g.id, 0);
      LessOk(g, Next(g, e));
    case Polls(mask, mode) =>
      PollMeans(g.id, mask, mode);
      LessOk(g, Next(g, e));
    case Writes(events) => WriteOk(g, events);
    case Clears(events) =>
      OffTakes(g.id, events);
      LessOk(g, Next(g, e));
  }

  ghost predicate IsRun(states: seq<Group>, steps: seq<Step>) {
    && |states| == |steps| + 1
    && forall i | 0 <= i < |steps| :: Enabled(states[i], steps[i]) && states[i + 1] == Next(states[i], steps[i])
  }

  /** In no reachable state does a task wait for a condition that holds. */
  lemma {:induction false} NoLostWakeUp(states: seq<Group>, steps: seq<Step>, n: nat)
    requires IsRun(states, steps) && states[0].waiters == [] == states[0].woken && n <= |steps|
    ensures Ok(states[n])
    ensures forall w <- states[n].waiters :: PollRet(states[n].id, w.mask, w.mode) == 0
  {
    hide Next, Satisfied, PollRet, Proper;
    if n > 0 {
      NoLostWakeUp(states, steps, n - 1);
      assert states[n - 1 + 1] == Next(states[n - 1], steps[n - 1]);
      StepOk(states[n - 1], steps[n - 1]);
    }
    forall w <- states[n].waiters ensures PollRet(states[n].id, w.mask, w.mode) == 0 {
      PollMeans(states[n].id, w.mask, w.mode);
    }
  }

  // ---------------------------------------------------------------- what a caller sees

  /** The words in terms of bits; the tables below are written with them. */
  lemma Tests(id: bv32, mask: bv32)
    ensures AnyOf(id, mask) <==> id & mask != 0
    ensures AllOf(id, mask) <==> id & mask == mask
  {
  }

  lemma CommonWord(id: bv32, mask: bv32)
    ensures Common(id, mask) == id & mask
  {
  }

  lemma SetWord(id: bv32, mask: bv32)
    ensures Set(id, mask) == id | mask
  {
  }

  lemma OffWord(id: bv32, mask: bv32)
    ensures Off(id, mask) == id & !mask
  {
  }

  /** The modes a read accepts: LOS_WAITMODE_OR or LOS_WAITMODE_AND, with or without
      LOS_WAITMODE_CLR. */
  lemma FlagsAnswer(mode: bv32)
    ensures FlagsOk(mode) <==> mode in {2, 3, 4, 5}
    ensures mode in {2, 3} ==> AnyOf(mode, WAITMODE_OR)
    ensures mode in {4, 5} ==> !AnyOf(mode, WAITMODE_OR)
    ensures AnyOf(WAITMODE_CLR, 3) && AnyOf(WAITMODE_CLR, 5) && !AnyOf(WAITMODE_CLR, 2) && !AnyOf(WAITMODE_CLR, 4)
  {
  }

  /** What a reader with one of these modes waits for. */
  predicate There(id: bv32, mask: bv32, mode: bv32) {
    if mode == 2 || mode == 3 then AnyOf(id, mask) else AllOf(id, mask)
  }

  /** The word after a successful poll: clear mode takes what was returned. */
  function Left(id: bv32, mask: bv32, mode: bv32): bv32 {
    if mode == 3 || mode == 5 then Off(id, Common(id, mask)) else id
  }

  /** A poll with a proper mode. */
  lemma PollAnswers(id: bv32, mask: bv32, mode: bv32)
    requires mask != 0 && FlagsOk(mode)
    ensures PollRet(id, mask, mode) == if There(id, mask, mode) then Common(id, mask) else 0
    ensures There(id, mask, mode) ==> Common(id, mask) != 0
    ensures PollId(id, mask, mode) == if There(id, mask, mode) then Left(id, mask, mode) else id
  {
    FlagsAnswer(mode);
    SomeBit(id, mask);
    hide AnyOf, AllOf, Common, Off, FlagsOk;
  }

  /** A read: it returns the bits of the mask that are set as soon as the condition holds,
      whatever the timeout and the scheduler lock, and takes exactly those bits away in
      clear mode. */
  lemma ReadAnswers(g: Group, t: nat, mask: bv32, mode: bv32, wait: bool, interrupt: bool, locked: bool)
    ensures var r, g' := ReadRet(g, mask, mode, wait, interrupt, locked), Read(g, t, mask, mode, wait, interrupt, locked);
      if mask == 0 then r == MaskInvalid && g' == g
      else if AnyOf(mask, ERRTYPE_ERROR) then r == SetBitInvalid && g' == g
      else if mode !in {2, 3, 4, 5} then r == FlagsInvalid && g' == g
      else if interrupt then r == ReadInInterrupt && g' == g
      else if There(g.id, mask, mode) then r == Got(Common(g.id, mask)) && g' == g.(id := Left(g.id, mask, mode))
      else if !wait then r == Got(0) && g' == g
      else if locked then r == ReadInLock && g' == g
      else r == Blocked && g' == g.(waiters := g.waiters + [Waiter(t, mask, mode)])
  {
    hide AnyOf, FlagsOk, PollRet, PollId, There, Left, Common;
    FlagsAnswer(mode);
    if mask != 0 && FlagsOk(mode) {
      PollAnswers(g.id, mask, mode);
    }
  }

  /** The second poll of a woken reader. */
  lemma ResumeAnswers(g: Group, i: nat)
    requires i < |g.woken| && Proper(g.woken[i])
    ensures var w, g' := g.woken[i], Resume(g, i);
      && ResumeRet(g, i) == (if There(g.id, w.mask, w.mode) then Common(g.id, w.mask) else 0)
      && g'.woken == g.woken[..i] + g.woken[i + 1..] && g'.waiters == g.waiters
      && g'.id == if There(g.id, w.mask, w.mode) then Left(g.id, w.mask, w.mode) else g.id
  {
    hide AnyOf, FlagsOk, PollRet, PollId, There, Left, Common;
    PollAnswers(g.id, g.woken[i].mask, g.woken[i].mode);
  }

  /** A write: it is refused for the error bit alone; otherwise the word gets the bits, and
      of the waiters those are woken whose condition holds now. */
  lemma WriteAnswers(g: Group, events: bv32)
    requires Ok(g)
    ensures var r, g', id := WriteRet(events), Write(g, events), Set(g.id, events);
      if AnyOf(events, ERRTYPE_ERROR) then r == SetBitInvalid && g' == g
      else
        && r == Done && g'.id == id
        && |g'.woken| == |g.woken| + |g.waiters| - |g'.waiters| && |g.woken| <= |g'.woken|
        && g'.woken[..|g.woken|] == g.woken
        && (forall w :: w in g'.waiters <==> w in g.waiters && !There(id, w.mask, w.mode))
        && (forall w :: w in g'.woken[|g.woken|..] <==> w in g.waiters && There(id, w.mask, w.mode))
  {
    hide AnyOf, Satisfied, Proper, There, Select, Write, WriteRet, Set;
    var id := Set(g.id, events);
    WriteIs(g, events);
    SelectMembers(g.waiters, id, false);
    SelectMembers(g.waiters, id, true);
    forall w <- g.waiters ensures Satisfied(id, w.mask, w.mode) == There(id, w.mask, w.mode) {
      ConditionAnswers(id, w);
    }
  }

  lemma ConditionAnswers(id: bv32, w: Waiter)
    requires Proper(w)
    ensures Satisfied(id, w.mask, w.mode) == There(id, w.mask, w.mode)
  {
    FlagsAnswer(w.mode);
    hide AnyOf, AllOf, FlagsOk;
  }

  lemma ClearAnswers(g: Group, events: bv32)
    ensures Next(g, Clears(events)) == Group(Common(g.id, events), g.waiters, g.woken)
  {
    hide Common;
  }

  // ---------------------------------------------------------------- what a woken reader gets

  /** No bit of the mask is lost by the step. */
  predicate Keeps(g: Group, g': Group, mask: bv32) {
    Within(Common(g.id, mask), g'.id)
  }

  /** A write satisfies whom it wakes, and if none of the bits asked for is lost until
      the task runs, its second poll succeeds. */
  lemma {:induction false} WokenReadSucceeds(states: seq<Group>, steps: seq<Step>, a: nat, b: nat, w: Waiter)
    requires IsRun(states, steps) && a < b <= |steps|
    requires steps[a].Writes? && WriteRet(steps[a].events) == Done && w in Write(states[a], steps[a].events).woken && w !in states[a].woken
    requires forall i | a < i < b :: Keeps(states[i], states[i + 1], w.mask)
    ensures Satisfied(states[b].id, w.mask, w.mode) && PollRet(states[b].id, w.mask, w.mode) != 0
    decreases b
  {
    hide Satisfied, PollRet, Within, Common, WriteRet, Set, Select;
    if a + 1 == b {
      SelectMembers(states[a].waiters, Set(states[a].id, steps[a].events), true);
      assert states[a + 1] == Next(states[a], steps[a]);
    } else {
      WokenReadSucceeds(states, steps, a, b - 1, w);
      assert Keeps(states[b - 1], states[b - 1 + 1], w.mask);
      KeptBits(states[b - 1].id, states[b].id, w.mask, w.mode);
    }
    PollMeans(states[b].id, w.mask, w.mode);
  }

  /** A run in which task `t` blocks, is woken and then gets no bits from its read. */
  ghost predicate ReturnsNothing(states: seq<Group>, steps: seq<Step>, t: nat) {
    && IsRun(states, steps) && |steps| > 0
    && states[0] == Group(0, [], [])
    && (var e := steps[|steps| - 1];
        var g := states[|steps| - 1];
        e.Resumes? && e.i < |g.woken| && g.woken[e.i].task == t && ResumeRet(g, e.i) == 0)
  }

  /** It does happen otherwise: two tasks wait for one bit in clear mode, a write wakes
      both, the first takes the bit, and the read of the second returns 0 although it
      asked to wait and did not time out. */
  lemma WokenReadMayReturnNothing()
    ensures exists states: seq<Group>, steps: seq<Step> :: ReturnsNothing(states, steps, 1)
  {
    var mode: bv32 := 3;  // any of the bits, clear when satisfied
    var w0, w1 := Waiter(0, 1, mode), Waiter(1, 1, mode);
    var steps := [Reads(0, 1, mode, true, false, false), Reads(1, 1, mode, true, false, false), Writes(1), Resumes(0), Resumes(0)];
    var states := [Group(0, [], []), Group(0, [w0], []), Group(0, [w0, w1], []), Group(1, [], [w0, w1]), Group(0, [], [w1]), Group(0, [], [])];
    OneBit();
    hide PollRet, PollId, Satisfied, FlagsOk, AnyOf, Set, Next;
    Blocks(states[0], 0);
    Blocks(states[1], 1);
    WakesBoth(w0, w1);
    assert Drop([w0, w1], 0) == [w1] && Drop([w1], 0) == [];
    Resumed(states[3]);
    Resumed(states[4]);
    hide IsRun, ResumeRet;
    FiveSteps(states, steps);
    assert ResumeRet(states[4], 0) == 0 by { LastPoll(states[4]); }
    assert ReturnsNothing(states, steps, 1);
  }

  lemma FiveSteps(states: seq<Group>, steps: seq<Step>)
    requires |states| == 6 && |steps| == 5
    requires Enabled(states[0], steps[0]) && states[1] == Next(states[0], steps[0])
    requires Enabled(states[1], steps[1]) && states[2] == Next(states[1], steps[1])
    requires Enabled(states[2], steps[2]) && states[3] == Next(states[2], steps[2])
    requires Enabled(states[3], steps[3]) && states[4] == Next(states[3], steps[3])
    requires Enabled(states[4], steps[4]) && states[5] == Next(states[4], steps[4])
    ensures IsRun(states, steps)
  {
    hide Enabled, Next;
  }

  lemma LastPoll(g: Group)
    requires |g.woken| > 0 && g.woken[0].mask == 1 && g.woken[0].mode == 3 && g.id == 0
    ensures ResumeRet(g, 0) == 0
  {
    OneBit();
    hide PollRet;
  }

  lemma Blocks(g: Group, t: nat)
    requires g.id == 0
    ensures Next(g, Reads(t, 1, 3, true, false, false)) == g.(waiters := g.waiters + [Waiter(t, 1, 3)])
  {
    OneBit();
    hide PollRet, PollId, FlagsOk, AnyOf;
  }

  lemma Resumed(g: Group)
    requires |g.woken| > 0 && g.woken[0].mask == 1 && g.woken[0].mode == 3 && g.id in {0, 1}
    ensures Next(g, Resumes(0)) == Group(0, g.waiters, Drop(g.woken, 0))
  {
    OneBit();
    hide PollRet, PollId;
  }

  lemma OneBit()
    ensures !AnyOf(1, ERRTYPE_ERROR) && FlagsOk(3) && Set(0, 1) == 1 && Satisfied(1, 1, 3) && !Satisfied(0, 1, 3)
    ensures PollRet(0, 1, 3) == 0 && PollId(0, 1, 3) == 0 && PollRet(1, 1, 3) == 1 && PollId(1, 1, 3) == 0
  {
  }

  lemma WakesBoth(w0: Waiter, w1: Waiter)
    requires w0.mask == 1 == w1.mask && w0.mode == 3 == w1.mode
    ensures Next(Group(0, [w0, w1], []), Writes(1)) == Group(1, [], [w0, w1])
  {
    OneBit();
    hide Satisfied, AnyOf, Set;
    assert [w0, w1][..1] == [w0] && [w0][..0] == [];
    assert Select([w0], 1, true) == [w0] && Select([w0], 1, false) == [];
    assert Select([w0, w1], 1, true) == [w0, w1] && Select([w0, w1], 1, false) == [];
  }

  // ---------------------------------------------------------------- control block

  class EventCb {
    var id: bv32               // uwEventID
    var waiters: seq<Waiter>   // stEventList, with uwEventMask and uwEventMode of each task
    ghost var woken: seq<Waiter>

    ghost function Abs(): Group
      reads this
    {
      Group(id, waiters, woken)
    }

    ghost predicate Valid()
      reads this
    {
      Ok(Abs())
    }

    /** LOS_EventInit. */
    constructor ()
      ensures Valid() && Abs() == Group(0, [], [])
    {
      id, waiters, woken := 0, [], [];
    }

    /** LOS_EventPoll on the word of this group. */
    method EventPoll(mask: bv32, mode: bv32) returns (ret: bv32)
      modifies `id
      ensures ret == PollRet(old(id), mask, mode) && id == PollId(old(id), mask, mode)
    {
      hide AnyOf, AllOf, Common, Off;
      ret := 0;
      if AnyOf(mode, WAITMODE_OR) {
        if AnyOf(id, mask) {
          ret := Common(id, mask);
        }
      } else {
        if mask != 0 && AllOf(id, mask) {
          ret := Common(id, mask);
        }
      }
      if ret != 0 && AnyOf(WAITMODE_CLR, mode) {
        id := Off(id, ret);
      }
    }

    /** LOS_EventRead up to where it returns or blocks. */
    method EventRead(t: nat, mask: bv32, mode: bv32, wait: bool, interrupt: bool, locked: bool) returns (r: Ret)
      requires Valid()
      modifies this
      ensures Valid() && r == ReadRet(old(Abs()), mask, mode, wait, interrupt, locked)
      ensures Abs() == Read(old(Abs()), t, mask, mode, wait, interrupt, locked)
    {
      ReadOk(Abs(), t, mask, mode, wait, interrupt, locked);
      hide Ok, AnyOf, PollRet, PollId;
      if mask == 0 { return MaskInvalid; }
      if AnyOf(mask, ERRTYPE_ERROR) { return SetBitInvalid; }
      if (AnyOf(mode, WAITMODE_OR) && AnyOf(mode, WAITMODE_AND))
        || AnyOf(mode, !(WAITMODE_OR | WAITMODE_AND | WAITMODE_CLR))
        || !AnyOf(mode, WAITMODE_OR | WAITMODE_AND)
      { return FlagsInvalid; }
      if interrupt { return ReadInInterrupt; }
      var bits := EventPoll(mask, mode);
      if bits == 0 {
        FailedPoll(old(id), mask, mode);
        if !wait { return Got(bits); }
        if locked { return ReadInLock; }
        waiters := waiters + [Waiter(t, mask, mode)];  // osTaskWait
        return Blocked;
      }
      r := Got(bits);
    }

    /** The rest of LOS_EventRead, when the `i`-th woken task runs. */
    method ResumeReader(ghost i: nat, mask: bv32, mode: bv32) returns (bits: bv32)
      requires Valid() && i < |woken| && mask == woken[i].mask && mode == woken[i].mode
      modifies this
      ensures Valid() && bits == ResumeRet(old(Abs()), i) && Abs() == Resume(old(Abs()), i)
    {
      StepOk(Abs(), Resumes(i));
      hide Ok, PollRet, PollId;
      bits := EventPoll(mask, mode);
      woken := Drop(woken, i);
    }

    /** LOS_EventWrite: the loop unlinks tasks while it walks the list. */
    method EventWrite(events: bv32) returns (r: Ret)
      requires Valid()
      modifies this
      ensures Valid() && r == WriteRet(events) && Abs() == Write(old(Abs()), events)
    {
      hide Ok, AnyOf, AllOf, Set, Select, Write, WriteRet, Walked;
      ghost var g := Abs();
      WriteOk(g, events);
      WriteIs(g, events);
      if AnyOf(events, ERRTYPE_ERROR) { return SetBitInvalid; }
      id := Set(id, events);
      var i := 0;
      ghost var k := WalkStart(g, id);
      while i < |waiters|
        invariant id == Set(g.id, events) && i <= |waiters| && k <= |g.waiters| && Walked(g, id, Abs(), i, k)
        decreases |g.waiters| - k
      {
        var w := waiters[i];
        NextWaiter(g, events, Abs(), i, k);
        if (AnyOf(w.mode, WAITMODE_OR) && AnyOf(w.mask, events)) || (AnyOf(w.mode, WAITMODE_AND) && AllOf(id, w.mask)) {
          waiters := waiters[..i] + waiters[i + 1..];  // osTaskWake
          woken := woken + [w];
        } else {
          i := i + 1;
        }
        k := k + 1;
      }
      WalkEnd(g, id, Abs(), i, k);
      r := Done;
    }

    /** LOS_EventClear keeps only the bits in `events`. */
    method EventClear(events: bv32)
      requires Valid()
      modifies this
      ensures Valid() && Abs() == Next(old(Abs()), Clears(events))
    {
      StepOk(Abs(), Clears(events));
      hide Ok, Common;
      id := Common(id, events);
    }
  }

  lemma WriteIs(g: Group, events: bv32)
    ensures WriteRet(events) == if AnyOf(events, ERRTYPE_ERROR) then SetBitInvalid else Done
    ensures WriteRet(events) == SetBitInvalid ==> Write(g, events) == g
    ensures WriteRet(events) == Done ==>
              var id := Set(g.id, events);
              Write(g, events) == Group(id, Select(g.waiters, id, false), g.woken + Select(g.waiters, id, true))
  {
  }

  /** The walk has looked at the first `k` of the tasks: those that stay are the first
      `i` of the list, the others are woken, and the rest has not been touched. */
  ghost predicate Walked(g: Group, id: bv32, now: Group, i: nat, k: nat) {
    && Ok(g) && i <= |now.waiters| && k <= |g.waiters| && now.id == id
    && now.waiters[..i] == Select(g.waiters[..k], id, false)
    && now.waiters[i..] == g.waiters[k..]
    && now.woken == g.woken + Select(g.waiters[..k], id, true)
  }

  lemma WalkStart(g: Group, id: bv32) returns (k: nat)
    requires Ok(g)
    ensures k == 0 && Walked(g, id, g.(id := id), 0, 0)
  {
    hide Ok;
    k := 0;
    assert g.woken + [] == g.woken;
  }

  lemma NextWaiter(g: Group, events: bv32, now: Group, i: nat, k: nat)
    requires Walked(g, Set(g.id, events), now, i, k) && i < |now.waiters|
    ensures k < |g.waiters|
    ensures var w, id := now.waiters[i], Set(g.id, events);
      if (AnyOf(w.mode, WAITMODE_OR) && AnyOf(w.mask, events)) || (AnyOf(w.mode, WAITMODE_AND) && AllOf(id, w.mask))
      then Walked(g, id, now.(waiters := now.waiters[..i] + now.waiters[i + 1..], woken := now.woken + [w]), i, k + 1)
      else Walked(g, id, now, i + 1, k + 1)
  {
    var w, id := now.waiters[i], Set(g.id, events);
    assert now.waiters[i..][0] == g.waiters[k..][0] == w && w in g.waiters;
    WriteTestExact(w, events, g.id);
    HitIs(w, events, id);
    hide Ok, AnyOf, AllOf, Set, Hit, Satisfied, Proper;
    assert now.waiters[i + 1..] == now.waiters[i..][1..] == g.waiters[k..][1..] == g.waiters[k + 1..];
    assert g.waiters[..k + 1][..k] == g.waiters[..k];
    assert now.waiters[..i + 1] == now.waiters[..i] + [w];
  }

  lemma HitIs(w: Waiter, events: bv32, id: bv32)
    ensures Hit(w, events, id)
       <==> (AnyOf(w.mode, WAITMODE_OR) && AnyOf(w.mask, events)) || (AnyOf(w.mode, WAITMODE_AND) && AllOf(id, w.mask))
  {
    hide AnyOf, AllOf;
  }

  lemma WalkEnd(g: Group, id: bv32, now: Group, i: nat, k: nat)
    requires Walked(g, id, now, i, k) && i >= |now.waiters|
    ensures now == Group(id, Select(g.waiters, id, false), g.woken + Select(g.waiters, id, true))
  {
    hide Ok, Select;
    assert g.waiters[k..] == [] && g.waiters[..k] == g.waiters && now.waiters[..i] == now.waiters;
  }

  lemma FailedPoll(id: bv32, mask: bv32, mode: bv32)
    requires PollRet(id, mask, mode) == 0
    ensures PollId(id, mask, mode) == id
  {
    hide PollRet;
  }
}
