/** los_list.h: circular intrusive doubly linked lists, pointer by pointer.  A list
    is described by the ring of its nodes in order; the ring's first node is the
    list head when the list belongs to an object. */
module DlList {

  class Node {
    var next: Node?
    var prev: Node?

    constructor ()
      ensures next == null && prev == null
    {
      next, prev := null, null;
    }
  }

  ghost predicate Distinct<T>(r: seq<T>) {
    forall i, j | 0 <= i < j < |r| :: r[i] != r[j]
  }

  ghost function Last(r: seq<Node>): Node
    requires r != []
  {
    r[|r| - 1]
  }

  /** The nodes of `r`, in this order, form one circular list. */
  ghost predicate Ring(r: seq<Node>)
    reads r
  {
    && r != []
    && Distinct(r)
    && (forall i | 0 <= i < |r| - 1 :: r[i].next == r[i + 1])
    && Last(r).next == r[0]
    && (forall i | 0 < i < |r| :: r[i].prev == r[i - 1])
    && r[0].prev == Last(r)
  }

  /** The node behind place `k`, and the node in front of it. */
  ghost function Behind(r: seq<Node>, k: nat): Node
    requires k < |r|
  {
    if k + 1 < |r| then r[k + 1] else r[0]
  }

  ghost function InFront(r: seq<Node>, k: nat): Node
    requires k < |r|
  {
    if k > 0 then r[k - 1] else Last(r)
  }

  lemma InsertDistinct(r: seq<Node>, node: Node, k: nat)
    requires Distinct(r) && node !in r && k <= |r|
    ensures Distinct(r[..k] + [node] + r[k..])
  {
    var s := r[..k] + [node] + r[k..];
    forall i, j | 0 <= i < j < |s| ensures s[i] != s[j] {
      assert s[i] == if i < k then r[i] else if i == k then node else r[i - 1];
      assert s[j] == if j < k then r[j] else if j == k then node else r[j - 1];
    }
  }

  lemma RemoveDistinct(r: seq<Node>, k: nat)
    requires Distinct(r) && k < |r|
    ensures Distinct(r[..k] + r[k + 1..]) && r[k] !in r[..k] + r[k + 1..]
  {
    var s := r[..k] + r[k + 1..];
    forall i | 0 <= i < |s| ensures s[i] == r[if i < k then i else i + 1] {
    }
  }

  /** LOS_ListInit. */
  method ListInit(list: Node)
    modifies list
    ensures Ring([list])
  {
    list.next := list;
    list.prev := list;
  }

  /** LOS_ListAdd: `node` comes right behind `list`, wherever that stands in its ring. */
  method ListAdd(list: Node, node: Node, ghost r: seq<Node>, ghost k: nat)
    requires Ring(r) && k < |r| && r[k] == list && node !in r
    modifies node, list, Behind(r, k)
    ensures Ring(r[..k + 1] + [node] + r[k + 1..])
  {
    InsertDistinct(r, node, k + 1);
    node.next := list.next;
    node.prev := list;
    list.next.prev := node;
    list.next := node;
    ghost var s := r[..k + 1] + [node] + r[k + 1..];
    assert s[0] == r[0] && Last(s) == if k + 1 < |r| then Last(r) else node;
    forall i | 0 <= i < |s| - 1 ensures s[i].next == s[i + 1] && s[i + 1].prev == s[i] {
      if i <= k {
        assert s[i] == r[i];
        assert s[i + 1] == if i < k then r[i + 1] else node;
      } else {
        assert s[i] == if i == k + 1 then node else r[i - 1];
        assert s[i + 1] == r[i];
      }
    }
  }

  /** LOS_ListTailInsert: `node` becomes the last entry of the list headed by `list`. */
  method ListTailInsert(list: Node, node: Node, ghost r: seq<Node>)
    requires Ring(r) && r[0] == list && node !in r
    modifies node, list, Last(r)
    ensures Ring(r + [node])
  {
    assert r[..|r|] + [node] + r[|r|..] == r + [node];
    ListAdd(list.prev, node, r, |r| - 1);
  }

  /** LOS_ListDelete: needs nothing but the node itself, which may be alone in its ring. */
  method ListDelete(node: Node, ghost r: seq<Node>, ghost k: nat)
    requires Ring(r) && k < |r| && r[k] == node
    modifies node, Behind(r, k), InFront(r, k)
    ensures 1 < |r| ==> Ring(r[..k] + r[k + 1..])
    ensures node.next == null && node.prev == null
  {
    if 1 < |r| {
      RemoveDistinct(r, k);
    }
    node.next.prev := node.prev;
    node.prev.next := node.next;
    node.next := null;
    node.prev := null;
  }

  /** LOS_ListEmpty. */
  method ListEmpty(list: Node, ghost r: seq<Node>) returns (empty: bool)
    requires Ring(r) && r[0] == list
    ensures empty <==> r == [list]
  {
    empty := list.next == list;
    assert 1 < |r| ==> list.next == r[1] != r[0];
  }
}
