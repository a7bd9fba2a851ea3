/** los_mux.c as it runs: mutex control blocks and task priorities changed in place. */
module MuxTable {
  import opened Mutex

  class Table {
    const prio: array<nat>   // usPriority of the task control blocks
    const mux: array<Mux>    // g_pstAllMux
    var unused: seq<nat>     // g_stUnusedMuxList

    ghost function Abs(): State
      reads this, prio, mux
    {
      State(prio[..], mux[..])
    }

    ghost predicate Valid()
      reads this, prio, mux
    {
      && Ok(Abs())
      && Distinct(unused)
      && (forall m: nat :: m in unused <==> m < mux.Length && !mux[m].used)
    }

    constructor (priorities: seq<nat>, limit: nat)
      requires priorities != []
      ensures Valid() && prio[..] == priorities && mux.Length == limit && fresh(prio) && fresh(mux)
      ensures forall m | 0 <= m < limit :: !mux[m].used && m in unused
    {
      prio := new nat[|priorities|](i requires 0 <= i < |priorities| => priorities[i]);
      mux := new Mux[limit](_ => Mux(false, 0, 0, 0, []));
      unused := seq(limit, i => i);
      new;
      forall m | 0 <= m < limit ensures m in unused {
        assert unused[m] == m;
      }
      assert prio[..] == priorities;
    }

    /** LOS_MuxCreate. */
    method MuxCreate() returns (ok: bool, m: nat)
      requires Valid()
      modifies this, mux
      ensures Valid() && ok == old(unused != [])
      ensures !ok ==> Abs() == old(Abs())
      ensures ok ==> m < mux.Length && old(!mux[m].used) && Abs() == Create(old(Abs()), m)
    {
      m := 0;
      if unused == [] { return false, m; }
      m := unused[0];
      assert m in unused && unused == [m] + unused[1..];
      CreateOk(Abs(), m);
      unused := unused[1..];
      mux[m] := mux[m].(used := true, count := 0, saved := 0, waiters := []);
      ok := true;
    }

    /** LOS_MuxDelete. */
    method MuxDelete(m: nat) returns (r: Ret)
      requires Valid()
      modifies this, mux
      ensures Valid() && r == DeleteRet(old(Abs()), m) && Abs() == Delete(old(Abs()), m)
    {
      DeleteOk(Abs(), m);
      if m >= mux.Length || !mux[m].used { return Invalid; }
      if mux[m].waiters != [] || mux[m].count != 0 { return Pended; }
      unused := [m] + unused;
      mux[m] := mux[m].(used := false);
      r := Released;
    }

    /** LOS_MuxPend up to where it returns or blocks. */
    method MuxPend(t: nat, m: nat, wait: bool, interrupt: bool, locked: bool) returns (r: Ret)
      requires Valid() && Runs(Abs(), t)
      modifies prio, mux
      ensures Valid() && r == PendRet(old(Abs()), t, m, wait, interrupt, locked)
      ensures old(forall x <- Abs().mux :: x.owner < |Abs().prio|) && Abs() == Pend(old(Abs()), t, m, wait, interrupt, locked)
    {
      PendOk(Abs(), t, m, wait, interrupt, locked);
      if m >= mux.Length || !mux[m].used { return Invalid; }
      if interrupt { return PendInterr; }
      if mux[m].count == 0 {
        mux[m] := mux[m].(count := 1, owner := t, saved := prio[t]);
        return Acquired;
      }
      if mux[m].owner == t {
        mux[m] := mux[m].(count := mux[m].count + 1);
        return Again;
      }
      if !wait { return Unavailable; }
      if locked { return PendInLock; }
      var owner := mux[m].owner;
      assert mux[m] in Abs().mux;
      if prio[owner] > prio[t] {
        prio[owner] := prio[t];  // osTaskPriModify
      }
      mux[m] := mux[m].(waiters := mux[m].waiters + [t]);  // osTaskWait
      r := Blocked;
    }

    /** LOS_MuxPost. */
    method MuxPost(t: nat, m: nat) returns (r: Ret)
      requires Valid() && Runs(Abs(), t)
      modifies prio, mux
      ensures Valid() && r == PostRet(old(Abs()), t, m)
      ensures old(forall x <- Abs().mux :: forall w <- x.waiters :: w < |Abs().prio|) && Abs() == Post(old(Abs()), t, m)
    {
      hide Ok;
      PostOk(Abs(), t, m);
      ghost var spec := Post(Abs(), t, m);
      if m >= mux.Length || !mux[m].used { return Invalid; }
      if mux[m].count == 0 || mux[m].owner != t { return Invalid; }
      mux[m] := mux[m].(count := mux[m].count - 1);
      if mux[m].count != 0 {
        assert Abs().prio == spec.prio && Abs().mux == spec.mux;
        return Again;
      }
      if prio[t] != mux[m].saved {
        prio[t] := mux[m].saved;  // osTaskPriModify
      }
      if mux[m].waiters == [] {
        assert Abs().prio == spec.prio && Abs().mux == spec.mux;
        return Released;
      }
      var next := mux[m].waiters[0];
      assert next in old(mux[m]).waiters && old(mux[m]) in old(Abs().mux);
      mux[m] := Mux(true, 1, next, prio[next], mux[m].waiters[1..]);  // osTaskWake
      assert Abs().prio == spec.prio && Abs().mux == spec.mux;
      r := HandedOver;
    }
  }
}
