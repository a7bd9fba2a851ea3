/** What the second poll of a woken reader finds.  The write that wakes a task has
    satisfied its condition, but the task polls again only when it runs.  This module
    says exactly which steps take the condition away, which bring it back, and so when
    the read of a woken task returns bits. */
module EventReads {
  import opened Event

  // ---------------------------------------------------------------- single polls and clears

  /** A poll with `mask` and `mode` takes away bits that a reader satisfied on `id` needs:
      of a reader for any bit all it has, of a reader for all bits one. */
  predicate PollSpoils(id: bv32, mask: bv32, mode: bv32, w: Waiter) {
    && AnyOf(WAITMODE_CLR, mode) && Satisfied(id, mask, mode)
    && if AnyOf(w.mode, WAITMODE_OR) then Within(Common(id, w.mask), mask) else AnyOf(w.mask, mask)
  }

  /** Clearing all bits but `events` does. */
  predicate ClearSpoils(id: bv32, events: bv32, w: Waiter) {
    if AnyOf(w.mode, WAITMODE_OR) then !AnyOf(Common(id, w.mask), events) else !Within(w.mask, events)
  }

  /** Writing `events` satisfies a reader not satisfied before. */
  predicate WriteSatisfies(id: bv32, events: bv32, w: Waiter) {
    && !AnyOf(events, ERRTYPE_ERROR)
    && if AnyOf(w.mode, WAITMODE_OR) then AnyOf(w.mask, events) else w.mask != 0 && Within(Off(w.mask, id), events)
  }

  lemma TakenBits(id: bv32, taken: bv32, mask: bv32)
    ensures Common(Off(id, Common(id, taken)), mask) == Off(Common(id, mask), taken)
  {
  }

  lemma NothingLeft(x: bv32, taken: bv32)
    ensures Off(x, taken) == 0 <==> Within(x, taken)
  {
  }

  lemma AllLeft(x: bv32, taken: bv32)
    ensures Off(x, taken) == x <==> !AnyOf(x, taken)
  {
  }

  lemma AsCommon(id: bv32, mask: bv32)
    ensures AnyOf(id, mask) <==> Common(id, mask) != 0
    ensures AllOf(id, mask) <==> Common(id, mask) == mask
  {
  }

  lemma TakenAny(id: bv32, taken: bv32, mask: bv32)
    ensures !AnyOf(Off(id, Common(id, taken)), mask) <==> Within(Common(id, mask), taken)
  {
    TakenBits(id, taken, mask);
    NothingLeft(Common(id, mask), taken);
    AsCommon(Off(id, Common(id, taken)), mask);
    hide AnyOf, AllOf, Common, Off, Within;
  }

  lemma TakenAll(id: bv32, taken: bv32, mask: bv32)
    ensures AllOf(id, mask) ==> (!AllOf(Off(id, Common(id, taken)), mask) <==> AnyOf(mask, taken))
  {
    TakenBits(id, taken, mask);
    AllLeft(mask, taken);
    AsCommon(id, mask);
    AsCommon(Off(id, Common(id, taken)), mask);
    hide AnyOf, AllOf, Common, Off, Within;
  }

  lemma ClearedAny(id: bv32, events: bv32, mask: bv32)
    ensures AnyOf(Common(id, events), mask) <==> AnyOf(Common(id, mask), events)
  {
  }

  lemma ClearedAll(id: bv32, events: bv32, mask: bv32)
    ensures AllOf(id, mask) ==> (AllOf(Common(id, events), mask) <==> Within(mask, events))
  {
  }

  lemma WrittenAny(id: bv32, events: bv32, mask: bv32)
    ensures AnyOf(id, mask) ==> AnyOf(Set(id, events), mask)
    ensures !AnyOf(id, mask) ==> (AnyOf(Set(id, events), mask) <==> AnyOf(mask, events))
  {
    SetKeepsAny(id, events, mask);
    if !AnyOf(id, mask) {
      AnyNew(id, events, mask);
    }
    hide AnyOf, Set;
  }

  lemma SetKeepsAny(id: bv32, events: bv32, mask: bv32)
    ensures AnyOf(id, mask) ==> AnyOf(Set(id, events), mask)
  {
  }

  /** The bits of the mask still missing after the write. */
  lemma Missing(id: bv32, events: bv32, mask: bv32)
    ensures Off(mask, Set(id, events)) == Off(Off(mask, id), events)
    ensures Off(mask, id) == 0 ==> Off(Off(mask, id), events) == 0
  {
  }

  lemma AllIsNoneMissing(id: bv32, mask: bv32)
    ensures AllOf(id, mask) <==> Off(mask, id) == 0
  {
    NothingLeft(mask, id);
    AllIsWithin(id, mask);
    hide AllOf, Off, Within;
  }

  lemma AllIsWithin(id: bv32, mask: bv32)
    ensures AllOf(id, mask) <==> Within(mask, id)
  {
  }

  lemma PartOfMask(mask: bv32, id: bv32, events: bv32)
    ensures !AnyOf(mask, events) ==> !AnyOf(Off(mask, id), events)
  {
  }

  lemma WithinMeets(x: bv32, events: bv32)
    ensures x != 0 && Within(x, events) ==> AnyOf(x, events)
  {
  }

  lemma WrittenAll(id: bv32, events: bv32, mask: bv32)
    ensures AllOf(id, mask) ==> AllOf(Set(id, events), mask)
    ensures AllOf(Set(id, events), mask) <==> Within(Off(mask, id), events)
    ensures !AllOf(id, mask) && Within(Off(mask, id), events) ==> AnyOf(mask, events)
  {
    Missing(id, events, mask);
    AllIsNoneMissing(id, mask);
    AllIsNoneMissing(Set(id, events), mask);
    NothingLeft(Off(mask, id), events);
    PartOfMask(mask, id, events);
    WithinMeets(Off(mask, id), events);
    hide AnyOf, AllOf, Set, Off, Within;
  }

  lemma PollTakes(id: bv32, mask: bv32, mode: bv32, w: Waiter)
    requires Satisfied(id, w.mask, w.mode)
    ensures !Satisfied(PollId(id, mask, mode), w.mask, w.mode) <==> PollSpoils(id, mask, mode, w)
  {
    TakenAny(id, mask, w.mask);
    TakenAll(id, mask, w.mask);
    SomeBit(id, mask);
    hide AnyOf, AllOf, Within, Common, Off;
  }

  lemma ClearTakes(id: bv32, events: bv32, w: Waiter)
    requires Satisfied(id, w.mask, w.mode)
    ensures !Satisfied(Common(id, events), w.mask, w.mode) <==> ClearSpoils(id, events, w)
  {
    ClearedAny(id, events, w.mask);
    ClearedAll(id, events, w.mask);
    hide AnyOf, AllOf, Within, Common, Off;
  }

  lemma WriteGives(id: bv32, events: bv32, w: Waiter)
    requires !AnyOf(events, ERRTYPE_ERROR)
    ensures Satisfied(id, w.mask, w.mode) ==> Satisfied(Set(id, events), w.mask, w.mode)
    ensures !Satisfied(id, w.mask, w.mode) ==> (Satisfied(Set(id, events), w.mask, w.mode) <==> WriteSatisfies(id, events, w))
    ensures !Satisfied(id, w.mask, w.mode) && WriteSatisfies(id, events, w) ==> AnyOf(w.mask, events)
  {
    WrittenAny(id, events, w.mask);
    WrittenAll(id, events, w.mask);
    hide AnyOf, AllOf, Within, Set, Off;
  }

  // ---------------------------------------------------------------- steps

  /** The steps that end the condition of a satisfied reader: polls that clear, by any
      task, and LOS_EventClear. */
  predicate Spoils(g: Group, e: Step, w: Waiter) {
    match e
    case Reads(_, mask, mode, _, interrupt, _) =>
      mask != 0 && !AnyOf(mask, ERRTYPE_ERROR) && FlagsOk(mode) && !interrupt && PollSpoils(g.id, mask, mode, w)
    case Resumes(i) => i < |g.woken| && PollSpoils(g.id, g.woken[i].mask, g.woken[i].mode, w)
    case Polls(mask, mode) => PollSpoils(g.id, mask, mode, w)
    case Clears(events) => ClearSpoils(g.id, events, w)
    case _ => false
  }

  predicate Satisfies(g: Group, e: Step, w: Waiter) {
    e.Writes? && WriteSatisfies(g.id, e.events, w)
  }

  lemma ReadSpoils(g: Group, e: Step, w: Waiter)
    requires e.Reads? && Satisfied(g.id, w.mask, w.mode)
    ensures !Satisfied(Next(g, e).id, w.mask, w.mode) <==> Spoils(g, e, w)
  {
    PollMeans(g.id, e.mask, e.mode);
    PollTakes(g.id, e.mask, e.mode, w);
    hide Satisfied, PollRet, PollId, AnyOf, FlagsOk;
    if PollSpoils(g.id, e.mask, e.mode, w) {
      assert Satisfied(g.id, e.mask, e.mode);
    }
  }

  /** A satisfied reader is satisfied after a step unless the step spoils it. */
  lemma SpoilsExactly(g: Group, e: Step, w: Waiter)
    requires Enabled(g, e) && Satisfied(g.id, w.mask, w.mode)
    ensures !Satisfied(Next(g, e).id, w.mask, w.mode) <==> Spoils(g, e, w)
  {
    hide Satisfied, PollSpoils, ClearSpoils, Common, PollId, AnyOf, FlagsOk, Set, Select, Read;
    match e
    case Reads(_, _, _, _, _, _) => ReadSpoils(g, e, w);
    case Resumes(i) => PollTakes(g.id, g.woken[i].mask, g.woken[i].mode, w);
    case Polls(mask, mode) => PollTakes(g.id, mask, mode, w);
    case Clears(events) => ClearTakes(g.id, events, w);
    case Writes(events) =>
      if !AnyOf(events, ERRTYPE_ERROR) {
        WriteGives(g.id, events, w);
      }
    case Expires(_) =>
  }

  /** A reader that is not satisfied is satisfied after a step exactly if that step
      writes the bits it lacks. */
  lemma SatisfiesExactly(g: Group, e: Step, w: Waiter)
    requires Enabled(g, e) && !Satisfied(g.id, w.mask, w.mode)
    ensures Satisfied(Next(g, e).id, w.mask, w.mode) <==> Satisfies(g, e, w)
    ensures Satisfies(g, e, w) ==> AnyOf(w.mask, e.events)
  {
    hide Satisfied, Within, Common, PollRet, PollId, AnyOf, FlagsOk, Set, Select;
    if e.Writes? {
      if !AnyOf(e.events, ERRTYPE_ERROR) {
        WriteGives(g.id, e.events, w);
      }
    } else {
      LosesBits(g, e);
      if Satisfied(Next(g, e).id, w.mask, w.mode) {
        FewerBits(g.id, Next(g, e).id, w.mask, w.mode);
      }
    }
  }

  lemma LosesBits(g: Group, e: Step)
    requires Enabled(g, e) && !e.Writes?
    ensures Within(Next(g, e).id, g.id)
  {
    hide Within, Common, PollRet, PollId, AnyOf, FlagsOk;
    match e
    case Reads(_, mask, mode, _, _, _) =>
      PollMeans(g.id, mask, mode);
      OffTakes(g.id, 0);
    case Resumes(i) => PollMeans(g.id, g.woken[i].mask, g.woken[i].mode);
    case Polls(mask, mode) => PollMeans(g.id, mask, mode);
    case Clears(events) => OffTakes(g.id, events);
    case Expires(_) => OffTakes(g.id, 0);
  }

  // ---------------------------------------------------------------- runs

  /** Task `w` is woken by the write in step `a`. */
  ghost predicate WokenAt(states: seq<Group>, steps: seq<Step>, a: nat, w: Waiter) {
    && IsRun(states, steps) && a < |steps|
    && steps[a].Writes? && WriteRet(steps[a].events) == Done
    && w in Write(states[a], steps[a].events).woken && w !in states[a].woken
  }

  lemma SatisfiedWhenWoken(states: seq<Group>, steps: seq<Step>, a: nat, w: Waiter)
    requires WokenAt(states, steps, a, w)
    ensures Satisfied(states[a + 1].id, w.mask, w.mode)
  {
    hide Satisfied, WriteRet, Set, Select;
    SelectMembers(states[a].waiters, Set(states[a].id, steps[a].events), true);
  }

  /** Step `i` ends, or step `j` restores, the condition of `w`. */
  ghost predicate Ends(g: Group, e: Step, w: Waiter) {
    Satisfied(g.id, w.mask, w.mode) && Spoils(g, e, w)
  }

  ghost predicate Restores(g: Group, e: Step, w: Waiter) {
    !Satisfied(g.id, w.mask, w.mode) && Satisfies(g, e, w)
  }

  lemma StepTurns(states: seq<Group>, steps: seq<Step>, i: nat, w: Waiter)
    requires IsRun(states, steps) && i < |steps|
    ensures !Satisfied(states[i + 1].id, w.mask, w.mode) <==>
            Ends(states[i], steps[i], w) || (!Satisfied(states[i].id, w.mask, w.mode) && !Restores(states[i], steps[i], w))
  {
    hide Satisfied, Spoils, Satisfies, Next;
    if Satisfied(states[i].id, w.mask, w.mode) {
      SpoilsExactly(states[i], steps[i], w);
    } else {
      SatisfiesExactly(states[i], steps[i], w);
    }
  }

  /** Every step that ends the condition is made good by a later one before `b`. */
  ghost predicate MadeGood(states: seq<Group>, steps: seq<Step>, a: nat, b: nat, w: Waiter) {
    forall i | a < i < b <= |steps| < |states| && Ends(states[i], steps[i], w) ::
      exists j | i < j < b :: Restores(states[j], steps[j], w)
  }

  /** The second poll of a woken task, whenever it runs: it returns bits exactly if each
      step since the wake-up that ended its condition was made good by a write. */
  lemma {:induction false} WokenReadReturns(states: seq<Group>, steps: seq<Step>, a: nat, b: nat, w: Waiter)
    requires WokenAt(states, steps, a, w) && a < b <= |steps|
    ensures PollRet(states[b].id, w.mask, w.mode) != 0 <==> MadeGood(states, steps, a, b, w)
    decreases b
  {
    hide Satisfied, Ends, Restores, PollRet, Next, WriteRet, Select, Set;
    PollMeans(states[b].id, w.mask, w.mode);
    if b == a + 1 {
      SatisfiedWhenWoken(states, steps, a, w);
    } else {
      WokenReadReturns(states, steps, a, b - 1, w);
      PollMeans(states[b - 1].id, w.mask, w.mode);
      StepTurns(states, steps, b - 1, w);
      OneMore(states, steps, a, b, w);
    }
  }

  lemma OneMore(states: seq<Group>, steps: seq<Step>, a: nat, b: nat, w: Waiter)
    requires a + 1 < b <= |steps| < |states|
    ensures MadeGood(states, steps, a, b, w) <==>
            !Ends(states[b - 1], steps[b - 1], w) && (MadeGood(states, steps, a, b - 1, w) || Restores(states[b - 1], steps[b - 1], w))
  {
  }

  /** No write in between sets bits that `w` asked for. */
  ghost predicate NoWriteFor(steps: seq<Step>, a: nat, b: nat, w: Waiter) {
    forall i | a < i < b <= |steps| && steps[i].Writes? && WriteRet(steps[i].events) == Done :: !AnyOf(w.mask, steps[i].events)
  }

  /** Without such writes it returns bits exactly if no step in between spoils it. */
  lemma {:induction false} WokenReadExact(states: seq<Group>, steps: seq<Step>, a: nat, b: nat, w: Waiter)
    requires WokenAt(states, steps, a, w) && a < b <= |steps| && NoWriteFor(steps, a, b, w)
    ensures PollRet(states[b].id, w.mask, w.mode) != 0 <==> forall i | a < i < b :: !Spoils(states[i], steps[i], w)
    decreases b
  {
    hide Satisfied, Spoils, PollRet, Next, WriteRet, Select, Set, AnyOf, Satisfies;
    PollMeans(states[b].id, w.mask, w.mode);
    if b == a + 1 {
      SatisfiedWhenWoken(states, steps, a, w);
    } else {
      WokenReadExact(states, steps, a, b - 1, w);
      PollMeans(states[b - 1].id, w.mask, w.mode);
      StepTurns(states, steps, b - 1, w);
      NotRestored(states[b - 1], steps, a, b, b - 1, w);
    }
  }

  lemma NotRestored(g: Group, steps: seq<Step>, a: nat, b: nat, i: nat, w: Waiter)
    requires NoWriteFor(steps, a, b, w) && a < i < b <= |steps| && Enabled(g, steps[i])
    ensures !Restores(g, steps[i], w)
  {
    if Restores(g, steps[i], w) {
      SatisfiesExactly(g, steps[i], w);
      hide AnyOf, Satisfied;
    }
  }
}
