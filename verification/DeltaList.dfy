/** Lists whose entries store only the increment over the entry in front of them.
    The task delay wheel stores roll counts this way, the software timer list
    stores tick counts this way.  `Prefix(d, i)` is the sum of the first `i`
    increments, so entry `i` stands for the absolute value `Prefix(d, i + 1)`. */
module DeltaList {

  function Prefix(d: seq<nat>, i: nat): nat
    requires i <= |d|
  {
    if i == 0 then 0 else Prefix(d, i - 1) + d[i - 1]
  }

  /** Linking a new entry with increment `a` in front of position `p`, and taking
      `a` off the entry that was there. */
  function Insert(d: seq<nat>, p: nat, a: nat): seq<nat>
    requires p <= |d|
    requires p < |d| ==> a <= d[p]
  {
    d[..p] + [a] + if p < |d| then [d[p] - a] + d[p + 1..] else []
  }

  /** Unlinking entry `p` and handing its increment to the entry behind it. */
  function Remove(d: seq<nat>, p: nat): seq<nat>
    requires p < |d|
  {
    d[..p] + if p + 1 < |d| then [d[p] + d[p + 1]] + d[p + 2..] else []
  }

  lemma {:induction false} PrefixAgree(d: seq<nat>, e: seq<nat>, i: nat)
    requires i <= |d| && i <= |e|
    requires forall j | 0 <= j < i :: d[j] == e[j]
    ensures Prefix(d, i) == Prefix(e, i)
  {
    if i == 0 {
    } else {
      PrefixAgree(d, e, i - 1);
    }
  }

  lemma {:induction false} PrefixMonotone(d: seq<nat>, i: nat, j: nat)
    requires i <= j <= |d|
    ensures Prefix(d, i) <= Prefix(d, j)
  {
    if i < j {
      PrefixMonotone(d, i, j - 1);
    }
  }

  /** Absolute values survive an insertion: those in front keep their place, the
      new entry stands for `Prefix(d, p) + a`, those behind move up by one. */
  lemma {:induction false} PrefixInsert(d: seq<nat>, p: nat, a: nat, i: nat)
    requires p <= |d| && i <= |d|
    requires p < |d| ==> a <= d[p]
    ensures |Insert(d, p, a)| == |d| + 1
    ensures i <= p ==> Prefix(Insert(d, p, a), i) == Prefix(d, i)
    ensures Prefix(Insert(d, p, a), p + 1) == Prefix(d, p) + a
    ensures p < i ==> Prefix(Insert(d, p, a), i + 1) == Prefix(d, i)
  {
    var e := Insert(d, p, a);
    PrefixAgree(d, e, p);
    if i <= p {
      PrefixAgree(d, e, i);
    } else if i == p + 1 {
      assert e[p + 1] == d[p] - a;
    } else {
      PrefixInsert(d, p, a, i - 1);
      assert e[i] == d[i - 1];
    }
  }

  /** Absolute values survive a removal. */
  lemma {:induction false} PrefixRemove(d: seq<nat>, p: nat, i: nat)
    requires p < |d| && i <= |d|
    ensures |Remove(d, p)| == |d| - 1
    ensures i <= p ==> Prefix(Remove(d, p), i) == Prefix(d, i)
    ensures p + 1 < i ==> Prefix(Remove(d, p), i - 1) == Prefix(d, i)
  {
    var e := Remove(d, p);
    PrefixAgree(d, e, p);
    if i <= p {
      PrefixAgree(d, e, i);
    } else if i == p + 2 {
      assert e[p] == d[p] + d[p + 1];
      assert Prefix(d, p + 2) == Prefix(d, p) + d[p] + d[p + 1];
    } else if p + 2 < i {
      PrefixRemove(d, p, i - 1);
      assert e[i - 2] == d[i - 1];
    }
  }

  /** Taking one off the first increment takes one off every absolute value. */
  lemma {:induction false} PrefixDecHead(d: seq<nat>, i: nat)
    requires 0 < i <= |d| && 0 < d[0]
    ensures Prefix(d[0 := d[0] - 1], i) == Prefix(d, i) - 1
  {
    if i == 1 {
      assert Prefix(d[0 := d[0] - 1], 0) == 0 == Prefix(d, 0);
    } else {
      PrefixDecHead(d, i - 1);
    }
  }

  /** Dropping `k` leading zeros shifts the absolute values by `k` places. */
  lemma {:induction false} PrefixDropZeros(d: seq<nat>, k: nat, i: nat)
    requires k <= i <= |d|
    requires forall j | 0 <= j < k :: d[j] == 0
    ensures Prefix(d[k..], i - k) == Prefix(d, i)
    ensures Prefix(d, k) == 0
    decreases i
  {
    if k < i {
      PrefixDropZeros(d, k, i - 1);
    } else if 0 < k {
      PrefixDropZeros(d, k - 1, k - 1);
    }
  }
}
