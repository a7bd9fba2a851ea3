/** The task delay wheel of los_task.c: 32 buckets, a cursor that advances by one
    bucket per tick, and in every bucket a list of tasks whose roll counts are
    stored as increments.  Each task's bucket number and roll increment share one
    32-bit word (`uwIdxRollNum`): the upper five bits and the lower 27 bits. */
module TaskWheel {
  import opened DeltaList

  const SORTLINK_LEN: nat := 32
  const ROLL_RANGE: nat := 0x800_0000     // 2^27
  const WORD_RANGE: nat := 0x1_0000_0000  // 2^32

  /** The macros of los_task.inc on a 32-bit word. */
  function RollNum(w: nat): nat { w % ROLL_RANGE }

  function SortIndex(w: nat): nat { w / ROLL_RANGE }

  function Word(index: nat, roll: nat): nat { index * ROLL_RANGE + roll }

  lemma WordFields(index: nat, roll: nat)
    requires index < SORTLINK_LEN && roll < ROLL_RANGE
    ensures SortIndex(Word(index, roll)) == index && RollNum(Word(index, roll)) == roll
    ensures Word(index, roll) < WORD_RANGE
  {
  }

  lemma WordSplit(w: nat)
    requires w < WORD_RANGE
    ensures SortIndex(w) < SORTLINK_LEN && RollNum(w) < ROLL_RANGE
    ensures w == Word(SortIndex(w), RollNum(w))
  {
  }

  /** How far bucket `b` lies ahead of the cursor. */
  function Offset(b: nat, cursor: nat): nat
    requires b < SORTLINK_LEN && cursor < SORTLINK_LEN
  {
    if cursor <= b then b - cursor else b + SORTLINK_LEN - cursor
  }

  /** Ticks until the cursor next stands on bucket `b`: a full round for its own. */
  function Distance(b: nat, cursor: nat): nat
    requires b < SORTLINK_LEN && cursor < SORTLINK_LEN
  {
    if b == cursor then SORTLINK_LEN else Offset(b, cursor)
  }

  lemma BucketAhead(cursor: nat, i: nat)
    requires i < SORTLINK_LEN && cursor < SORTLINK_LEN
    ensures Offset((cursor + i) % SORTLINK_LEN, cursor) == i
  {
  }

  predicate Linked(l: seq<nat>, w: seq<nat>) {
    forall i | 0 <= i < |l| :: l[i] < |w|
  }

  function Rolls(l: seq<nat>, w: seq<nat>): (d: seq<nat>)
    requires Linked(l, w)
    ensures |d| == |l|
  {
    seq(|l|, i requires 0 <= i < |l| => RollNum(w[l[i]]))
  }

  /** Ticks left for entry `i` of bucket `b`, read off the representation. */
  function EntryTicks(l: seq<nat>, w: seq<nat>, b: nat, cursor: nat, i: nat): nat
    requires Linked(l, w) && i < |l| && b < SORTLINK_LEN && cursor < SORTLINK_LEN
  {
    Distance(b, cursor) + SORTLINK_LEN * Prefix(Rolls(l, w), i + 1)
  }

  ghost predicate Distinct(l: seq<nat>) {
    forall i, j | 0 <= i < j < |l| :: l[i] != l[j]
  }

  /** Bucket `b` holds distinct tasks, all of them tasks of bucket `b`. */
  ghost predicate BucketShape(l: seq<nat>, w: seq<nat>, b: nat) {
    && Linked(l, w)
    && Distinct(l)
    && (forall i | 0 <= i < |l| :: SortIndex(w[l[i]]) == b)
  }

  /** Bucket `b` has the right shape and represents the countdowns `ticks`. */
  ghost predicate BucketOk(l: seq<nat>, w: seq<nat>, b: nat, cursor: nat, ticks: map<nat, nat>)
    requires b < SORTLINK_LEN && cursor < SORTLINK_LEN
  {
    && BucketShape(l, w, b)
    && (forall i | 0 <= i < |l| :: l[i] in ticks && ticks[l[i]] == EntryTicks(l, w, b, cursor, i))
  }

  /** A bucket does not notice changes to words of tasks outside it. */
  lemma BucketFrame(l: seq<nat>, w: seq<nat>, w': seq<nat>, b: nat, c: nat, ticks: map<nat, nat>, ticks': map<nat, nat>)
    requires b < SORTLINK_LEN && c < SORTLINK_LEN && BucketOk(l, w, b, c, ticks) && |w| == |w'|
    requires forall i | 0 <= i < |l| :: w'[l[i]] == w[l[i]] && l[i] in ticks' && ticks'[l[i]] == ticks[l[i]]
    ensures BucketOk(l, w', b, c, ticks')
  {
    assert Rolls(l, w) == Rolls(l, w');
  }

  /** What `Add` stores in the words: the new task at `p` keeps the rest of its
      rolls, the task behind it gives up as many. */
  lemma RollsAfterInsert(l: seq<nat>, w: seq<nat>, p: nat, t: nat, w': seq<nat>)
    requires Linked(l, w) && p <= |l| && t < |w| && |w'| == |w| && t !in l
    requires p < |l| ==> RollNum(w'[t]) <= RollNum(w[l[p]])
    requires forall i | 0 <= i < |l| && i != p :: w'[l[i]] == w[l[i]]
    requires p < |l| ==> RollNum(w'[l[p]]) == RollNum(w[l[p]]) - RollNum(w'[t])
    requires Distinct(l)
    ensures Linked(l[..p] + [t] + l[p..], w')
    ensures Rolls(l[..p] + [t] + l[p..], w') == Insert(Rolls(l, w), p, RollNum(w'[t]))
  {
    var l' := l[..p] + [t] + l[p..];
    assert forall i | p < i < |l'| :: l'[i] == l[i - 1];
    assert Linked(l', w');
    var d, e := Insert(Rolls(l, w), p, RollNum(w'[t])), Rolls(l', w');
    assert |d| == |e|;
    forall i | 0 <= i < |d| ensures d[i] == e[i] {
      if i > p + 1 {
        assert l'[i] == l[i - 1];
      }
    }
  }

  lemma RollsAfterRemove(l: seq<nat>, w: seq<nat>, p: nat, w': seq<nat>)
    requires Linked(l, w) && p < |l| && |w'| == |w|
    requires Distinct(l)
    requires forall i | 0 <= i < |l| && i != p + 1 :: w'[l[i]] == w[l[i]]
    requires p + 1 < |l| ==> RollNum(w'[l[p + 1]]) == RollNum(w[l[p]]) + RollNum(w[l[p + 1]])
    ensures Linked(l[..p] + l[p + 1..], w')
    ensures Rolls(l[..p] + l[p + 1..], w') == Remove(Rolls(l, w), p)
  {
    var l' := l[..p] + l[p + 1..];
    assert forall i | p <= i < |l'| :: l'[i] == l[i + 1];
    var d, e := Remove(Rolls(l, w), p), Rolls(l', w');
    assert |d| == |e|;
    forall i | 0 <= i < |d| ensures d[i] == e[i] {
      if i > p {
        assert l'[i] == l[i + 1];
      }
    }
  }

  /** Which entry of the old list stands at place `i` after `t` was put at `p`,
      and what the new entry at `i` stands for. */
  lemma InsertEntry(l: seq<nat>, w: seq<nat>, p: nat, t: nat, w': seq<nat>, b: nat, c: nat, i: nat)
    requires b < SORTLINK_LEN && c < SORTLINK_LEN
    requires Linked(l, w) && p <= |l| && t < |w| && |w'| == |w| && i <= |l|
    requires var l' := l[..p] + [t] + l[p..];
      && Linked(l', w')
      && (p < |l| ==> RollNum(w'[t]) <= RollNum(w[l[p]]))
      && Rolls(l', w') == Insert(Rolls(l, w), p, RollNum(w'[t]))
    ensures var l' := l[..p] + [t] + l[p..];
      && (i < p ==> l'[i] == l[i] && EntryTicks(l', w', b, c, i) == EntryTicks(l, w, b, c, i))
      && (i > p ==> l'[i] == l[i - 1] && EntryTicks(l', w', b, c, i) == EntryTicks(l, w, b, c, i - 1))
      && (i == p ==> l'[i] == t && EntryTicks(l', w', b, c, i)
                      == Distance(b, c) + SORTLINK_LEN * (Prefix(Rolls(l, w), p) + RollNum(w'[t])))
  {
    PrefixInsert(Rolls(l, w), p, RollNum(w'[t]), if i < p then i + 1 else i);
  }

  lemma InsertShape(l: seq<nat>, w: seq<nat>, p: nat, t: nat, w': seq<nat>, b: nat)
    requires BucketShape(l, w, b) && p <= |l| && t < |w| && |w'| == |w| && t !in l
    requires forall i | 0 <= i < |l| :: SortIndex(w'[l[i]]) == SortIndex(w[l[i]])
    requires SortIndex(w'[t]) == b
    ensures BucketShape(l[..p] + [t] + l[p..], w', b)
  {
    var l' := l[..p] + [t] + l[p..];
    assert forall i | 0 <= i < |l'| :: l'[i] == if i < p then l[i] else if i == p then t else l[i - 1];
  }

  lemma BucketInsert(l: seq<nat>, w: seq<nat>, p: nat, t: nat, w': seq<nat>, b: nat, c: nat, ticks: map<nat, nat>, n: nat)
    requires b < SORTLINK_LEN && c < SORTLINK_LEN && BucketOk(l, w, b, c, ticks)
    requires p <= |l| && t < |w| && |w'| == |w| && t !in ticks
    requires p < |l| ==> RollNum(w'[t]) <= RollNum(w[l[p]])
    requires forall i | 0 <= i < |l| && i != p :: w'[l[i]] == w[l[i]]
    requires p < |l| ==> RollNum(w'[l[p]]) == RollNum(w[l[p]]) - RollNum(w'[t]) && SortIndex(w'[l[p]]) == b
    requires SortIndex(w'[t]) == b
    requires n == Distance(b, c) + SORTLINK_LEN * (Prefix(Rolls(l, w), p) + RollNum(w'[t]))
    ensures BucketOk(l[..p] + [t] + l[p..], w', b, c, ticks[t := n])
  {
    var l' := l[..p] + [t] + l[p..];
    InsertShape(l, w, p, t, w', b);
    RollsAfterInsert(l, w, p, t, w');
    forall i | 0 <= i < |l'|
      ensures l'[i] in ticks[t := n] && ticks[t := n][l'[i]] == EntryTicks(l', w', b, c, i)
    {
      InsertEntry(l, w, p, t, w', b, c, i);
    }
  }

  lemma RemoveEntry(l: seq<nat>, w: seq<nat>, p: nat, w': seq<nat>, b: nat, c: nat, i: nat)
    requires b < SORTLINK_LEN && c < SORTLINK_LEN
    requires Linked(l, w) && p < |l| && |w'| == |w| && i < |l| && i != p
    requires var l' := l[..p] + l[p + 1..];
      Linked(l', w') && Rolls(l', w') == Remove(Rolls(l, w), p)
    ensures var l' := l[..p] + l[p + 1..];
      var i' := if i < p then i else i - 1;
      l'[i'] == l[i] && EntryTicks(l', w', b, c, i') == EntryTicks(l, w, b, c, i)
  {
    PrefixRemove(Rolls(l, w), p, i + 1);
  }

  lemma RemoveShape(l: seq<nat>, w: seq<nat>, p: nat, w': seq<nat>, b: nat)
    requires BucketShape(l, w, b) && p < |l| && |w'| == |w|
    requires forall i | 0 <= i < |l| :: SortIndex(w'[l[i]]) == SortIndex(w[l[i]])
    ensures BucketShape(l[..p] + l[p + 1..], w', b)
    ensures l[p] !in l[..p] + l[p + 1..]
  {
    var l' := l[..p] + l[p + 1..];
    assert forall i | 0 <= i < |l'| :: l'[i] == l[if i < p then i else i + 1];
  }

  lemma BucketRemove(l: seq<nat>, w: seq<nat>, p: nat, w': seq<nat>, b: nat, c: nat, ticks: map<nat, nat>)
    requires b < SORTLINK_LEN && c < SORTLINK_LEN && BucketOk(l, w, b, c, ticks)
    requires p < |l| && |w'| == |w|
    requires forall i | 0 <= i < |l| && i != p + 1 :: w'[l[i]] == w[l[i]]
    requires p + 1 < |l| ==> RollNum(w'[l[p + 1]]) == RollNum(w[l[p]]) + RollNum(w[l[p + 1]]) && SortIndex(w'[l[p + 1]]) == b
    ensures BucketOk(l[..p] + l[p + 1..], w', b, c, ticks - {l[p]})
  {
    var l' := l[..p] + l[p + 1..];
    RemoveShape(l, w, p, w', b);
    RollsAfterRemove(l, w, p, w');
    forall i | 0 <= i < |l'|
      ensures l'[i] in ticks - {l[p]} && (ticks - {l[p]})[l'[i]] == EntryTicks(l', w', b, c, i)
    {
      RemoveEntry(l, w, p, w', b, c, if i < p then i else i + 1);
    }
  }

  /** The representation invariant: every bucket represents its part of `ticks`,
      and every countdown is found in the bucket its word names. */
  ghost predicate WheelOk(buckets: seq<seq<nat>>, w: seq<nat>, cursor: nat, ticks: map<nat, nat>) {
    && |buckets| == SORTLINK_LEN
    && cursor < SORTLINK_LEN
    && (forall t | 0 <= t < |w| :: w[t] < WORD_RANGE)
    && (forall t <- ticks :: t < |w| && 0 < ticks[t] < WORD_RANGE)
    && (forall t <- ticks :: SortIndex(w[t]) < SORTLINK_LEN && t in buckets[SortIndex(w[t])])
    && (forall b | 0 <= b < SORTLINK_LEN :: BucketOk(buckets[b], w, b, cursor, ticks))
  }

  /** What adding task `t` at place `p` of list `l` does to the words. */
  ghost predicate AddWords(l: seq<nat>, w: seq<nat>, w': seq<nat>, t: nat, index: nat, p: nat) {
    && |w'| == |w| && t < |w| && p <= |l| && Linked(l, w)
    && (forall x | 0 <= x < |w| :: w'[x] < WORD_RANGE)
    && (forall x | 0 <= x < |w| && x != t && !(p < |l| && x == l[p]) :: w'[x] == w[x])
    && SortIndex(w'[t]) == index
    && (p < |l| ==>
          && RollNum(w'[t]) <= RollNum(w[l[p]]) && RollNum(w'[l[p]]) == RollNum(w[l[p]]) - RollNum(w'[t])
          && SortIndex(w'[l[p]]) == index)
  }

  lemma AddOk(buckets: seq<seq<nat>>, w: seq<nat>, cursor: nat, ticks: map<nat, nat>,
              t: nat, timeout: nat, index: nat, p: nat, w': seq<nat>)
    requires WheelOk(buckets, w, cursor, ticks) && t !in ticks && index < SORTLINK_LEN
    requires 0 < timeout < WORD_RANGE && AddWords(buckets[index], w, w', t, index, p)
    requires timeout == Distance(index, cursor) + SORTLINK_LEN * (Prefix(Rolls(buckets[index], w), p) + RollNum(w'[t]))
    ensures WheelOk(buckets[index := buckets[index][..p] + [t] + buckets[index][p..]], w', cursor, ticks[t := timeout])
  {
    hide EntryTicks, Distance, RollNum, SortIndex, Rolls, Prefix;
    var l := buckets[index];
    var l' := l[..p] + [t] + l[p..];
    var ticks' := ticks[t := timeout];
    BucketInsert(l, w, p, t, w', index, cursor, ticks, timeout);
    forall b | 0 <= b < SORTLINK_LEN && b != index
      ensures BucketOk(buckets[b], w', b, cursor, ticks')
    {
      BucketFrame(buckets[b], w, w', b, cursor, ticks, ticks');
    }
    forall x <- ticks ensures SortIndex(w'[x]) == SortIndex(w[x]) {
      assert BucketOk(l, w, index, cursor, ticks);
    }
    hide BucketOk;
    forall x <- ticks' ensures SortIndex(w'[x]) < SORTLINK_LEN && x in buckets[index := l'][SortIndex(w'[x])] {
      assert x in l ==> x in l';
    }
  }

  lemma DeleteOk(buckets: seq<seq<nat>>, w: seq<nat>, cursor: nat, ticks: map<nat, nat>, index: nat, p: nat, w': seq<nat>)
    requires WheelOk(buckets, w, cursor, ticks) && |w| == |w'| && index < SORTLINK_LEN
    requires forall x | 0 <= x < |w| :: w'[x] < WORD_RANGE
    requires var l := buckets[index];
      && p < |l|
      && (forall x | 0 <= x < |w| && !(p + 1 < |l| && x == l[p + 1]) :: w'[x] == w[x])
      && (p + 1 < |l| ==> RollNum(w'[l[p + 1]]) == RollNum(w[l[p]]) + RollNum(w[l[p + 1]]) && SortIndex(w'[l[p + 1]]) == index)
    ensures WheelOk(buckets[index := buckets[index][..p] + buckets[index][p + 1..]], w', cursor, ticks - {buckets[index][p]})
  {
    var l := buckets[index];
    var l' := l[..p] + l[p + 1..];
    var ticks' := ticks - {l[p]};
    BucketRemove(l, w, p, w', index, cursor, ticks);
    forall b | 0 <= b < SORTLINK_LEN && b != index
      ensures BucketOk(buckets[b], w', b, cursor, ticks')
    {
      BucketFrame(buckets[b], w, w', b, cursor, ticks, ticks');
    }
    forall x <- ticks' ensures SortIndex(w'[x]) == SortIndex(w[x]) && (x in l ==> x in l') {
    }
  }

  /** One tick of every countdown; a task with one tick left is released. */
  function TickDown(ticks: map<nat, nat>): map<nat, nat> {
    map t | t in ticks && ticks[t] > 1 :: ticks[t] - 1
  }

  /** `released` lists, once each, exactly the tasks that have one tick left. */
  ghost predicate Expiring(ticks: map<nat, nat>, released: seq<nat>) {
    && (forall t :: t in released <==> t in ticks && ticks[t] <= 1)
    && Distinct(released)
  }

  /** What entry `i` of the bucket under the cursor stands for after one tick. */
  lemma ScanEntry(d: seq<nat>, k: nat, i: nat)
    requires k <= |d| && i < |d|
    requires forall j | 0 <= j < k :: d[j] == 0
    requires k < |d| ==> 0 < d[k]
    ensures i < k ==> Prefix(d, i + 1) == 0
    ensures i >= k ==> 0 < Prefix(d, i + 1) && Prefix(d[k..][0 := d[k] - 1], i - k + 1) == Prefix(d, i + 1) - 1
  {
    if i < k {
      PrefixDropZeros(d, i + 1, i + 1);
    } else {
      PrefixDropZeros(d, k, i + 1);
      PrefixDecHead(d[k..], i - k + 1);
      PrefixMonotone(d[k..], 1, i - k + 1);
      assert Prefix(d[k..], 1) == Prefix(d[k..], 0) + d[k];
    }
  }

  /** The bucket under the cursor after one tick: the `k` leading entries without
      rolls are gone, the entry behind them has one roll less. */
  lemma ScanBucket(l: seq<nat>, w: seq<nat>, w': seq<nat>, b: nat, c: nat, k: nat, ticks: map<nat, nat>)
    requires b < SORTLINK_LEN && c < SORTLINK_LEN && b == (c + 1) % SORTLINK_LEN
    requires BucketOk(l, w, b, c, ticks) && k <= |l| && |w'| == |w|
    requires forall j | 0 <= j < k :: RollNum(w[l[j]]) == 0
    requires k < |l| ==> 0 < RollNum(w[l[k]]) && RollNum(w'[l[k]]) == RollNum(w[l[k]]) - 1 && SortIndex(w'[l[k]]) == b
    requires forall i | 0 <= i < |l| && i != k :: w'[l[i]] == w[l[i]]
    ensures BucketOk(l[k..], w', b, b, TickDown(ticks))
    ensures forall i | 0 <= i < |l| :: ticks[l[i]] <= 1 <==> i < k
  {
    hide Prefix, RollNum, SortIndex;
    var l', d := l[k..], Rolls(l, w);
    assert forall i | 0 <= i < |l'| :: l'[i] == l[k + i];
    assert k < |l| ==> Rolls(l', w') == d[k..][0 := d[k] - 1];
    forall i | 0 <= i < |l|
      ensures ticks[l[i]] <= 1 <==> i < k
      ensures i >= k ==> EntryTicks(l', w', b, b, i - k) == ticks[l[i]] - 1
    {
      ScanEntry(d, k, i);
      assert ticks[l[i]] == EntryTicks(l, w, b, c, i) == 1 + SORTLINK_LEN * Prefix(d, i + 1);
    }
  }

  /** What the tick does to the words: only the entry that loses a roll changes. */
  ghost predicate ScanWords(l: seq<nat>, w: seq<nat>, w': seq<nat>, b: nat, k: nat) {
    && |w| == |w'| && k <= |l|
    && (forall x | 0 <= x < |w| :: w'[x] < WORD_RANGE)
    && (forall j | 0 <= j < k :: l[j] < |w| && RollNum(w[l[j]]) == 0)
    && (k < |l| ==> l[k] < |w| && 0 < RollNum(w[l[k]]) && RollNum(w'[l[k]]) == RollNum(w[l[k]]) - 1 && SortIndex(w'[l[k]]) == b)
    && (forall x | 0 <= x < |w| && !(k < |l| && x == l[k]) :: w'[x] == w[x])
  }

  lemma ScanOk(buckets: seq<seq<nat>>, w: seq<nat>, w': seq<nat>, c: nat, k: nat, ticks: map<nat, nat>)
    requires WheelOk(buckets, w, c, ticks)
    requires var b := (c + 1) % SORTLINK_LEN; ScanWords(buckets[b], w, w', b, k)
    ensures var b := (c + 1) % SORTLINK_LEN;
      && WheelOk(buckets[b := buckets[b][k..]], w', b, TickDown(ticks))
      && Expiring(ticks, buckets[b][..k])
  {
    hide ScanWords, BucketOk, SortIndex, Expiring;
    var b := (c + 1) % SORTLINK_LEN;
    ScanOwnBucket(buckets, w, w', c, b, k, ticks);
    ScanKeepsIndex(buckets, w, w', c, b, k, ticks, 0);
    forall b' | 0 <= b' < SORTLINK_LEN && b' != b
      ensures BucketOk(buckets[b'], w', b', b, TickDown(ticks))
      ensures forall x <- buckets[b'] :: x in ticks && ticks[x] > 1
    {
      ScanNotIn(buckets, w, w', c, b, b', k, ticks);
    }
    forall x <- ticks ensures SortIndex(w'[x]) == SortIndex(w[x]) {
      ScanKeepsIndex(buckets, w, w', c, b, k, ticks, x);
    }
    ScanFound(buckets, w, w', b, k, ticks);
  }

  lemma ScanOwnBucket(buckets: seq<seq<nat>>, w: seq<nat>, w': seq<nat>, c: nat, b: nat, k: nat, ticks: map<nat, nat>)
    requires WheelOk(buckets, w, c, ticks) && b == (c + 1) % SORTLINK_LEN && ScanWords(buckets[b], w, w', b, k)
    ensures k <= |buckets[b]| && BucketOk(buckets[b][k..], w', b, b, TickDown(ticks)) && Distinct(buckets[b])
    ensures forall i | 0 <= i < |buckets[b]| :: buckets[b][i] in ticks && (ticks[buckets[b][i]] <= 1 <==> i < k)
  {
    hide EntryTicks, RollNum, SortIndex, TickDown;
    assert BucketOk(buckets[b], w, b, c, ticks);
    ScanBucket(buckets[b], w, w', b, c, k, ticks);
  }

  lemma ScanNotIn(buckets: seq<seq<nat>>, w: seq<nat>, w': seq<nat>, c: nat, b: nat, b': nat, k: nat, ticks: map<nat, nat>)
    requires WheelOk(buckets, w, c, ticks) && b == (c + 1) % SORTLINK_LEN && ScanWords(buckets[b], w, w', b, k)
    requires b' < SORTLINK_LEN && b' != b
    ensures BucketOk(buckets[b'], w', b', b, TickDown(ticks))
    ensures forall x <- buckets[b'] :: x in ticks && ticks[x] > 1
  {
    hide EntryTicks, RollNum, TickDown;
    assert BucketOk(buckets[b], w, b, c, ticks) && BucketOk(buckets[b'], w, b', c, ticks);
    ScanOtherBucket(buckets[b'], w, w', b', c, ticks);
  }

  lemma ScanKeepsIndex(buckets: seq<seq<nat>>, w: seq<nat>, w': seq<nat>, c: nat, b: nat, k: nat, ticks: map<nat, nat>, x: nat)
    requires WheelOk(buckets, w, c, ticks) && b < SORTLINK_LEN && ScanWords(buckets[b], w, w', b, k)
    ensures |w'| == |w| && forall y | 0 <= y < |w| :: w'[y] < WORD_RANGE
    ensures x < |w| ==> SortIndex(w'[x]) == SortIndex(w[x])
  {
    hide EntryTicks, RollNum;
    assert BucketOk(buckets[b], w, b, c, ticks);
  }

  lemma ScanFound(buckets: seq<seq<nat>>, w: seq<nat>, w': seq<nat>, b: nat, k: nat, ticks: map<nat, nat>)
    requires |buckets| == SORTLINK_LEN && b < SORTLINK_LEN && k <= |buckets[b]| && |w'| == |w| && Distinct(buckets[b])
    requires forall x <- ticks :: x < |w| && SortIndex(w'[x]) == SortIndex(w[x]) < SORTLINK_LEN && x in buckets[SortIndex(w[x])]
    requires forall i | 0 <= i < |buckets[b]| :: buckets[b][i] in ticks && (ticks[buckets[b][i]] <= 1 <==> i < k)
    requires forall b' | 0 <= b' < SORTLINK_LEN && b' != b :: forall x <- buckets[b'] :: x in ticks && ticks[x] > 1
    ensures Expiring(ticks, buckets[b][..k])
    ensures forall x <- TickDown(ticks) :: x in buckets[b := buckets[b][k..]][SortIndex(w'[x])]
  {
    hide SortIndex;
    var l := buckets[b];
    assert Distinct(l[..k]);
    hide Distinct;
    forall x ensures x in l[..k] <==> x in ticks && ticks[x] <= 1 {
      ScanMember(l, k, ticks, x);
    }
    forall x <- TickDown(ticks) ensures x in buckets[b := l[k..]][SortIndex(w'[x])] {
      ScanMember(l, k, ticks, x);
    }
  }

  lemma ScanMember(l: seq<nat>, k: nat, ticks: map<nat, nat>, x: nat)
    requires k <= |l| && forall i | 0 <= i < |l| :: l[i] in ticks && (ticks[l[i]] <= 1 <==> i < k)
    ensures x in l && ticks[x] <= 1 <==> x in l[..k]
    ensures x in l && ticks[x] > 1 ==> x in l[k..]
  {
    if x in l {
      var i :| 0 <= i < |l| && l[i] == x;
      if i < k {
        assert l[..k][i] == x;
      } else {
        assert l[k..][i - k] == x;
      }
    }
  }

  /** Every other bucket is one tick closer and keeps all its tasks. */
  lemma ScanOtherBucket(l: seq<nat>, w: seq<nat>, w': seq<nat>, b: nat, c: nat, ticks: map<nat, nat>)
    requires b < SORTLINK_LEN && c < SORTLINK_LEN && b != (c + 1) % SORTLINK_LEN
    requires BucketOk(l, w, b, c, ticks) && |w'| == |w|
    requires forall i | 0 <= i < |l| :: w'[l[i]] == w[l[i]]
    ensures BucketOk(l, w', b, (c + 1) % SORTLINK_LEN, TickDown(ticks))
    ensures forall x <- l :: x in ticks && ticks[x] > 1
  {
    assert Rolls(l, w) == Rolls(l, w');
    assert Distance(b, (c + 1) % SORTLINK_LEN) == Distance(b, c) - 1;
    assert forall i | 0 <= i < |l| :: ticks[l[i]] == EntryTicks(l, w, b, c, i) > 1;
  }

  /** `least` is set and no task of `l` expires before it. */
  ghost predicate Bounds(least: nat, l: seq<nat>, ticks: map<nat, nat>) {
    forall x <- l :: x in ticks && 0 < least <= ticks[x]
  }

  /** The first entry of a bucket expires first. */
  lemma HeadIsEarliest(buckets: seq<seq<nat>>, w: seq<nat>, c: nat, ticks: map<nat, nat>, b: nat)
    requires WheelOk(buckets, w, c, ticks) && b < SORTLINK_LEN && buckets[b] != []
    ensures var h := buckets[b][0];
      && h in ticks && h < |w|
      && ticks[h] == Distance(b, c) + SORTLINK_LEN * RollNum(w[h])
      && forall x <- buckets[b] :: x in ticks && ticks[h] <= ticks[x]
  {
    var l := buckets[b];
    assert BucketOk(l, w, b, c, ticks);
    var d := Rolls(l, w);
    assert Prefix(d, 1) == Prefix(d, 0) + d[0];
    forall i | 0 <= i < |l| ensures l[i] in ticks && ticks[l[0]] <= ticks[l[i]] {
      PrefixMonotone(d, 1, i + 1);
      assert ticks[l[i]] == EntryTicks(l, w, b, c, i);
      assert ticks[l[0]] == EntryTicks(l, w, b, c, 0);
    }
  }

  class Wheel {
    const bucket: array<seq<nat>>  // pstSortLink: the list heads
    const word: array<nat>         // uwIdxRollNum of every task control block
    var cursor: nat
    ghost var ticks: map<nat, nat>

    ghost predicate Valid()
      reads this, bucket, word
    {
      WheelOk(bucket[..], word[..], cursor, ticks)
    }

    constructor (tasks: nat)
      ensures Valid() && ticks == map[] && word.Length == tasks && fresh(bucket) && fresh(word)
    {
      bucket := new seq<nat>[SORTLINK_LEN](_ => []);
      word := new nat[tasks](_ => 0);
      cursor := 0;
      ticks := map[];
    }

    /** The walk of osTaskAdd2TimerList along one bucket: the new task gives up the
        rolls of every entry it passes, and stops in front of the first entry with
        more rolls than it has left. */
    method Walk(l: seq<nat>, t: nat, index: nat) returns (i: nat)
      requires Linked(l, word[..]) && t < word.Length && t !in l
      requires index < SORTLINK_LEN && word[t] < WORD_RANGE && SortIndex(word[t]) == index
      modifies word
      ensures i <= |l| && Linked(l, old(word[..]))
      ensures word[t] < WORD_RANGE && SortIndex(word[t]) == index
      ensures RollNum(word[t]) + Prefix(Rolls(l, old(word[..])), i) == RollNum(old(word[t]))
      ensures i < |l| ==> RollNum(word[t]) < RollNum(word[l[i]])
      ensures forall x | 0 <= x < word.Length && x != t :: word[x] == old(word[x])
    {
      ghost var d := Rolls(l, word[..]);
      i := 0;
      while i < |l| && RollNum(word[l[i]]) <= RollNum(word[t])
        invariant i <= |l|
        invariant word[t] < WORD_RANGE && SortIndex(word[t]) == index
        invariant RollNum(word[t]) + Prefix(d, i) == RollNum(old(word[t]))
        invariant forall x | 0 <= x < word.Length && x != t :: word[x] == old(word[x])
      {
        assert d[i] == RollNum(word[l[i]]);
        var rest := RollNum(word[t]) - RollNum(word[l[i]]);
        WordFields(index, rest);
        word[t] := Word(index, rest);
        i := i + 1;
      }
    }

    /** The task takes its word, walks along the bucket and has the entry behind it
        give up as many rolls as it keeps. */
    method Place(t: nat, l: seq<nat>, index: nat, roll: nat) returns (i: nat)
      requires t < word.Length && index < SORTLINK_LEN && roll < ROLL_RANGE
      requires BucketShape(l, word[..], index) && t !in l
      requires forall x | 0 <= x < word.Length :: word[x] < WORD_RANGE
      modifies word
      ensures Linked(l, old(word[..])) && AddWords(l, old(word[..]), word[..], t, index, i)
      ensures Prefix(Rolls(l, old(word[..])), i) + RollNum(word[t]) == roll
    {
      ghost var w := word[..];
      WordFields(index, roll);
      word[t] := Word(index, roll);
      assert Rolls(l, word[..]) == Rolls(l, w);
      i := Walk(l, t, index);
      if i < |l| {
        var r := RollNum(word[l[i]]) - RollNum(word[t]);
        WordFields(index, r);
        word[l[i]] := Word(index, r);
      }
    }

    /** osTaskAdd2TimerList: the task is put where its countdown reads exactly
        `timeout`, and no other countdown changes. */
    method Add(t: nat, timeout: nat)
      requires Valid() && t < word.Length && t !in ticks
      requires 0 < timeout < WORD_RANGE
      modifies this`ticks, bucket, word
      ensures Valid()
      ensures ticks == old(ticks)[t := timeout]
    {
      var roll := timeout / SORTLINK_LEN;
      var index := timeout % SORTLINK_LEN;
      if index == 0 {
        roll := roll - 1;
      }
      index := (index + cursor) % SORTLINK_LEN;
      assert timeout == Distance(index, cursor) + SORTLINK_LEN * roll;
      hide Distance, AddWords;
      var l := bucket[index];
      assert BucketOk(l, word[..], index, cursor, ticks);
      ghost var w := word[..];
      var i := Place(t, l, index, roll);
      AddOk(bucket[..], w, cursor, ticks, t, timeout, index, i, word[..]);
      bucket[index] := l[..i] + [t] + l[i..];
      ticks := ticks[t := timeout];
    }

    /** UWROLLNUMADD on the entry behind the one being unlinked. */
    method HandOver(next: nat, t: nat, index: nat)
      requires next < word.Length && t < word.Length && next != t && index < SORTLINK_LEN
      requires SortIndex(word[next]) == index
      requires RollNum(word[t]) + RollNum(word[next]) < ROLL_RANGE
      modifies word
      ensures SortIndex(word[next]) == index && word[next] < WORD_RANGE
      ensures RollNum(word[next]) == RollNum(old(word[t])) + RollNum(old(word[next]))
      ensures forall x | 0 <= x < word.Length && x != next :: word[x] == old(word[x])
    {
      var r := RollNum(word[next]) + RollNum(word[t]);
      WordFields(index, r);
      word[next] := Word(index, r);
    }

    /** osTimerListDelete: the task leaves the wheel; the entry behind it takes
        over its rolls, so no other countdown changes. */
    method Delete(t: nat)
      requires Valid() && t in ticks
      modifies this`ticks, bucket, word
      ensures Valid()
      ensures ticks == old(ticks) - {t}
    {
      var index := SortIndex(word[t]);
      var l := bucket[index];
      assert index < SORTLINK_LEN && BucketOk(l, word[..], index, cursor, ticks);
      var p :| 0 <= p < |l| && l[p] == t;
      ghost var w := word[..];
      if p + 1 < |l| {
        RollsBounded(bucket[..], w, cursor, ticks, index, p + 1);
        HandOver(l[p + 1], t, index);
      }
      DeleteOk(bucket[..], w, cursor, ticks, index, p, word[..]);
      hide WheelOk;
      bucket[index] := l[..p] + l[p + 1..];
      ticks := ticks - {t};
    }

    /** The loop of osTaskScan over the bucket under the cursor. */
    method PopExpired(l: seq<nat>, index: nat) returns (k: nat)
      requires Linked(l, word[..]) && index < SORTLINK_LEN
      requires forall i | 0 <= i < |l| :: SortIndex(word[l[i]]) == index && word[l[i]] < WORD_RANGE
      modifies word
      ensures k <= |l| && Linked(l, old(word[..]))
      ensures forall j | 0 <= j < k :: RollNum(old(word[..])[l[j]]) == 0
      ensures k < |l| ==>
        && 0 < RollNum(old(word[..])[l[k]]) && RollNum(word[l[k]]) == RollNum(old(word[..])[l[k]]) - 1
        && SortIndex(word[l[k]]) == index && word[l[k]] < WORD_RANGE
      ensures forall x | 0 <= x < word.Length && !(k < |l| && x == l[k]) :: word[x] == old(word[x])
    {
      k := 0;
      while k < |l|
        invariant k <= |l| && word[..] == old(word[..])
        invariant forall j | 0 <= j < k :: RollNum(word[l[j]]) == 0
      {
        if RollNum(word[l[k]]) > 0 {
          word[l[k]] := word[l[k]] - 1;  // UWROLLNUMDEC
          return;
        }
        k := k + 1;
      }
    }

    /** osTaskScan, wheel part: one tick passes for every countdown; the tasks that
        reach zero leave the wheel and are handed back in list order. */
    method Scan() returns (released: seq<nat>)
      requires Valid()
      modifies this, bucket, word
      ensures Valid()
      ensures ticks == TickDown(old(ticks))
      ensures Expiring(old(ticks), released)
    {
      ghost var w, c := word[..], cursor;
      cursor := (cursor + 1) % SORTLINK_LEN;
      var l := bucket[cursor];
      assert BucketOk(l, w, cursor, c, ticks);
      var k := PopExpired(l, cursor);
      ScanOk(bucket[..], w, word[..], c, k, ticks);
      bucket[cursor] := l[k..];
      ticks := TickDown(ticks);
      released := l[..k];
    }

    /** osTaskNextSwitchTimeGet: the smallest countdown, or 0 when there is none. */
    method NextSwitchTime() returns (least: nat)
      requires Valid()
      ensures least == 0 <==> ticks == map[]
      ensures least != 0 ==> exists t <- ticks :: ticks[t] == least
      ensures forall t <- ticks :: least <= ticks[t]
    {
      hide BucketOk, RollNum;
      least := 0;
      ghost var earliest: nat := 0;
      var i := 0;
      while i < SORTLINK_LEN
        invariant i <= SORTLINK_LEN
        invariant least != 0 ==> earliest in ticks && ticks[earliest] == least
        invariant forall b | 0 <= b < SORTLINK_LEN && Offset(b, cursor) < i :: Bounds(least, bucket[b], ticks)
      {
        var b := (cursor + i) % SORTLINK_LEN;
        BucketAhead(cursor, i);
        var l := bucket[b];
        if l != [] {
          HeadIsEarliest(bucket[..], word[..], cursor, ticks, b);
          var temp := (if i == 0 then SORTLINK_LEN else i) + RollNum(word[l[0]]) * SORTLINK_LEN;
          assert temp == ticks[l[0]];
          if least == 0 || least > temp {
            least := temp;
            earliest := l[0];
          }
        }
        i := i + 1;
      }
      forall t <- ticks ensures least != 0 && least <= ticks[t] {
        var b := SortIndex(word[t]);
        assert t in bucket[..][b] && Bounds(least, bucket[b], ticks);
      }
    }
  }

  /** Handing over rolls never carries into the bucket number: cumulative rolls
      fit the 27 bits of the field. */
  lemma RollsBounded(buckets: seq<seq<nat>>, w: seq<nat>, cursor: nat, ticks: map<nat, nat>, b: nat, i: nat)
    requires WheelOk(buckets, w, cursor, ticks) && b < SORTLINK_LEN && 0 < i < |buckets[b]|
    ensures RollNum(w[buckets[b][i - 1]]) + RollNum(w[buckets[b][i]]) < ROLL_RANGE
  {
    var l := buckets[b];
    assert BucketOk(l, w, b, cursor, ticks);
    var d := Rolls(l, w);
    assert Prefix(d, i + 1) == Prefix(d, i - 1) + d[i - 1] + d[i];
    assert ticks[l[i]] == EntryTicks(l, w, b, cursor, i);
  }
}
