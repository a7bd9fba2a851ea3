/** los_priqueue.c: the ready queue, one intrusive list per priority.  The linked
    nodes are the `stPendList` nodes of the task control blocks; dequeueing needs
    only the node, whichever list it is in. */
module PriQueue {
  import opened DlList

  const PRIORITY_NUM: nat := 32

  /** Entries of the lists with numbers below `n`; a ring also counts its head. */
  function Total(rings: seq<seq<Node>>, n: nat): int
    requires n <= |rings|
  {
    if n == 0 then 0 else Total(rings, n - 1) + |rings[n - 1]| - 1
  }

  /** The first entry of the first non-empty list, or null. */
  ghost predicate IsTop(rings: seq<seq<Node>>, top: Node?) {
    if forall p | 0 <= p < |rings| :: |rings[p]| == 1 then top == null
    else exists p | 0 <= p < |rings| ::
      1 < |rings[p]| && top == rings[p][1] && forall q | 0 <= q < p :: |rings[q]| == 1
  }

  /** Rings that share no node. */
  ghost predicate Apart(r: seq<Node>, s: seq<Node>) {
    forall x <- r :: x !in s
  }

  ghost predicate Inside(r: seq<Node>, nodes: set<Node>) {
    forall x <- r :: x in nodes
  }

  lemma InsideAfter(r: seq<Node>, nodes: set<Node>, node: Node, k: nat)
    requires Inside(r, nodes) && k < |r| && r[k] == node && Distinct(r)
    ensures Inside(r[..k] + r[k + 1..], nodes - {node})
    ensures forall s: seq<Node> | Apart(s, r) && Inside(s, nodes) ::
              Apart(s, r[..k] + r[k + 1..]) && Apart(r[..k] + r[k + 1..], s) && Inside(s, nodes - {node})
  {
    RemoveDistinct(r, k);
    var t := r[..k] + r[k + 1..];
    assert forall x <- t :: x in r;
    assert node in r;
  }

  lemma InsideBefore(r: seq<Node>, nodes: set<Node>, node: Node)
    requires Inside(r, nodes) && node !in nodes
    ensures Inside(r + [node], nodes + {node})
    ensures forall s: seq<Node> | Apart(s, r) && Inside(s, nodes) ::
              Apart(s, r + [node]) && Apart(r + [node], s) && Inside(s, nodes + {node})
  {
  }

  class PriQueue {
    const heads: array<Node>          // g_pstLosPriorityQueueList
    ghost var rings: seq<seq<Node>>   // per priority: the head, then the entries in order
    ghost var nodes: set<Node>        // every node in a ring

    ghost predicate Valid()
      reads this, heads, nodes
    {
      && heads.Length == PRIORITY_NUM == |rings|
      && (forall p | 0 <= p < PRIORITY_NUM :: rings[p] != [] && rings[p][0] == heads[p] && Inside(rings[p], nodes))
      && (forall p | 0 <= p < PRIORITY_NUM :: Ring(rings[p]))
      && (forall p, q | 0 <= p < PRIORITY_NUM && 0 <= q < PRIORITY_NUM && p != q :: Apart(rings[p], rings[q]))
    }

    /** osPriqueueInit. */
    constructor ()
      ensures Valid() && forall p | 0 <= p < PRIORITY_NUM :: |rings[p]| == 1
      ensures fresh(heads) && fresh(nodes)
    {
      var none := new Node();
      heads := new Node[PRIORITY_NUM](_ => none);
      rings := [];
      nodes := {};
      new;
      var p := 0;
      while p < PRIORITY_NUM
        invariant p <= PRIORITY_NUM == heads.Length && |rings| == p && fresh(heads) && fresh(nodes)
        invariant forall q | 0 <= q < p :: heads[q] in nodes && Ring([heads[q]]) && rings[q] == [heads[q]]
        invariant forall q, s | 0 <= q < s < p :: heads[q] != heads[s]
      {
        var head := new Node();
        ListInit(head);
        heads[p] := head;
        rings := rings + [[head]];
        nodes := nodes + {head};
        p := p + 1;
      }
    }

    /** osPriqueueEnqueue. */
    method Enqueue(node: Node, p: nat)
      requires Valid() && p < PRIORITY_NUM && node !in nodes
      modifies this, nodes, node
      ensures Valid() && nodes == old(nodes) + {node}
      ensures rings == old(rings)[p := old(rings)[p] + [node]]
    {
      ghost var r := rings[p];
      assert Inside(r, nodes) && Ring(r) && r[0] in r && Last(r) in r;
      InsideBefore(r, nodes, node);
      ListTailInsert(heads[p], node, r);
      assert forall q | 0 <= q < PRIORITY_NUM && q != p :: Apart(rings[q], r) && Inside(rings[q], nodes) && Ring(rings[q]);
      hide Apart, Inside, Ring;
      rings := rings[p := r + [node]];
      nodes := nodes + {node};
    }

    /** osPriqueueDequeue. */
    method Dequeue(node: Node, ghost p: nat, ghost k: nat)
      requires Valid() && p < PRIORITY_NUM && 0 < k < |rings[p]| && rings[p][k] == node
      modifies this, nodes
      ensures Valid() && nodes == old(nodes) - {node}
      ensures rings == old(rings)[p := old(rings)[p][..k] + old(rings)[p][k + 1..]]
    {
      ghost var r := rings[p];
      assert Inside(r, nodes) && Ring(r) && node in r && Behind(r, k) in r && InFront(r, k) in r;
      InsideAfter(r, nodes, node, k);
      ListDelete(node, r, k);
      assert forall q | 0 <= q < PRIORITY_NUM && q != p :: Apart(rings[q], r) && Inside(rings[q], nodes) && Ring(rings[q]);
      hide Apart, Inside, Ring;
      rings := rings[p := r[..k] + r[k + 1..]];
      nodes := nodes - {node};
    }

    /** osPriqueueTop. */
    method Top() returns (top: Node?)
      requires Valid()
      ensures IsTop(rings, top)
    {
      var p := 0;
      while p < PRIORITY_NUM
        invariant p <= PRIORITY_NUM
        invariant forall q | 0 <= q < p :: |rings[q]| == 1
      {
        var empty := ListEmpty(heads[p], rings[p]);
        if !empty {
          return heads[p].next;
        }
        p := p + 1;
      }
      top := null;
    }

    /** osPriqueueSize: the walk around one ring. */
    method Size(p: nat) returns (count: nat)
      requires Valid() && p < PRIORITY_NUM
      ensures count == |rings[p]| - 1
    {
      ghost var r := rings[p];
      assert Ring(r);
      count := 0;
      var cur := heads[p].next;
      while cur != heads[p]
        invariant count < |r| && cur == Behind(r, count)
        decreases |r| - count
      {
        count := count + 1;
        cur := cur.next;
      }
    }

    /** osPriqueueTotalSize. */
    method TotalSize() returns (total: nat)
      requires Valid()
      ensures total == Total(rings, PRIORITY_NUM)
    {
      total := 0;
      var p := 0;
      while p < PRIORITY_NUM
        invariant p <= PRIORITY_NUM && total == Total(rings, p)
      {
        var size := Size(p);
        total := total + size;
        p := p + 1;
      }
    }
  }
}
