/**
 * include/cfe/list.h: hash lists. A node's back pointer names a slot, the head's `first` or some
 * node's `next`, and unlinking stores through it without knowing which of the two it is.
 */
module HList {
  import opened Sequences

  class HNode {
    var next: HNode?
    var pprev: Slot

    constructor ()
      ensures next == null && pprev == NoSlot
    {
      next, pprev := null, NoSlot;
    }
  }

  class HHead {
    var first: HNode?

    constructor ()
      ensures first == null
    {
      first := null;
    }
  }

  datatype Slot = NoSlot | FirstOf(h: HHead) | NextOf(n: HNode)

  /** The slot that holds node i of the list. */
  ghost function SlotOf(h: HHead, ns: seq<HNode>, i: nat): Slot
    requires i <= |ns|
  {
    if i == 0 then FirstOf(h) else NextOf(ns[i - 1])
  }

  ghost function NodeAt(ns: seq<HNode>, i: nat): HNode? {
    if i < |ns| then ns[i] else null
  }

  /**
   * h heads a list of the nodes ns: every slot holds the next node, and the slot that a node's
   * pprev names is the one that holds it.
   */
  ghost predicate IsHList(h: HHead, ns: seq<HNode>)
    reads h, ns
  {
    && NoRepeats(ns)
    && h.first == NodeAt(ns, 0)
    && forall i :: 0 <= i < |ns| ==> Placed(h, ns, i)
  }

  ghost predicate Placed(h: HHead, ns: seq<HNode>, i: nat)
    requires i < |ns|
    reads ns[i]
  {
    ns[i].next == NodeAt(ns, i + 1) && ns[i].pprev == SlotOf(h, ns, i)
  }

  ghost function InsertAt(ns: seq<HNode>, k: nat, n: HNode): seq<HNode>
    requires k <= |ns|
  {
    ns[..k] + [n] + ns[k..]
  }

  /** Where the slot lives. */
  ghost function Owner(s: Slot): set<object> {
    match s
    case NoSlot => {}
    case FirstOf(h) => {h}
    case NextOf(n) => {n}
  }

  /** *slot = v */
  method Store(slot: Slot, v: HNode?)
    requires slot != NoSlot
    modifies Owner(slot)
    ensures slot.FirstOf? ==> slot.h.first == v
    ensures slot.NextOf? ==> slot.n.next == v && slot.n.pprev == old(slot.n.pprev)
  {
    match slot
    case FirstOf(h) => h.first := v;
    case NextOf(n) => n.next := v;
  }

  method InitNode(n: HNode)
    modifies n
    ensures n.next == null && n.pprev == NoSlot
  {
    n.next := null;
    n.pprev := NoSlot;
  }

  /** The entries of a hash list are determined by its head. */
  lemma {:induction false} OneWalk(h: HHead, ns: seq<HNode>, ms: seq<HNode>, i: nat)
    requires IsHList(h, ns) && IsHList(h, ms)
    ensures NodeAt(ns, i) == NodeAt(ms, i)
  {
    if i > 0 {
      OneWalk(h, ns, ms, i - 1);
      assert i <= |ns| ==> Placed(h, ns, i - 1);
      assert i <= |ms| ==> Placed(h, ms, i - 1);
    }
  }

  lemma HListUnique(h: HHead, ns: seq<HNode>, ms: seq<HNode>)
    requires IsHList(h, ns) && IsHList(h, ms)
    ensures ns == ms
  {
    OneWalk(h, ns, ms, |ns|);
    OneWalk(h, ns, ms, |ms|);
    forall i | 0 <= i < |ns| && i < |ms|
      ensures ns[i] == ms[i]
    {
      OneWalk(h, ns, ms, i);
    }
  }

  /** __hlist_del: the node leaves the list; its own pointers keep their values. */
  method Unlink(n: HNode, ghost h: HHead, ghost ns: seq<HNode>, ghost k: nat)
    requires IsHList(h, ns) && k < |ns| && ns[k] == n
    modifies Owner(SlotOf(h, ns, k)), NodeSet(ns, k + 1)
    ensures IsHList(h, Cut(ns, k))
    ensures n.next == old(n.next) && n.pprev == old(n.pprev)
  {
    assert Placed(h, ns, k);
    assert k > 0 ==> Placed(h, ns, k - 1);
    assert k + 1 < |ns| ==> Placed(h, ns, k + 1);
    var next, pprev := n.next, n.pprev;
    Store(pprev, next);
    if next != null {
      next.pprev := pprev;
    }
    ghost var ms := Cut(ns, k);
    forall i | 0 <= i < |ms|
      ensures Placed(h, ms, i)
    {
      if i < k {
        assert ms[i] == ns[i] && old(Placed(h, ns, i));
      } else {
        assert ms[i] == ns[i + 1] && old(Placed(h, ns, i + 1));
      }
    }
  }

  ghost function NodeSet(ns: seq<HNode>, i: nat): set<HNode> {
    if i < |ns| then {ns[i]} else {}
  }

  /** Deleting a node that is on no list does nothing, so a second deletion is a no-op. */
  method DelInit(n: HNode, ghost h: HHead, ghost ns: seq<HNode>, ghost k: nat)
    requires n.pprev != NoSlot ==> IsHList(h, ns) && k < |ns| && ns[k] == n
    modifies if n.pprev == NoSlot then {} else {n} + Owner(n.pprev) + NodeSet(ns, k + 1)
    ensures n.pprev == NoSlot
    ensures old(n.pprev) != NoSlot ==> n.next == null && IsHList(h, Cut(ns, k))
  {
    if n.pprev != NoSlot {
      assert Placed(h, ns, k);
      Unlink(n, h, ns, k);
      InitNode(n);
    }
  }

  method AddHead(n: HNode, h: HHead, ghost ns: seq<HNode>)
    requires IsHList(h, ns) && n !in ns
    modifies h, n, NodeSet(ns, 0)
    ensures IsHList(h, [n] + ns)
  {
    var first := h.first;
    n.next := first;
    if first != null {
      first.pprev := NextOf(n);
    }
    h.first := n;
    n.pprev := FirstOf(h);
    ghost var ms := [n] + ns;
    forall i | 0 <= i < |ms|
      ensures Placed(h, ms, i)
    {
      if i > 0 {
        assert ms[i] == ns[i - 1] && old(Placed(h, ns, i - 1));
      }
    }
  }

  method AddBefore(n: HNode, next: HNode, ghost h: HHead, ghost ns: seq<HNode>, ghost k: nat)
    requires IsHList(h, ns) && n !in ns && k < |ns| && ns[k] == next
    modifies n, next, Owner(SlotOf(h, ns, k))
    ensures IsHList(h, InsertAt(ns, k, n))
  {
    assert Placed(h, ns, k);
    assert k > 0 ==> Placed(h, ns, k - 1);
    n.pprev := next.pprev;
    n.next := next;
    next.pprev := NextOf(n);
    Store(n.pprev, n);
    ghost var ms := InsertAt(ns, k, n);
    forall i | 0 <= i < |ms|
      ensures Placed(h, ms, i)
    {
      if i < k {
        assert ms[i] == ns[i] && old(Placed(h, ns, i));
      } else if i > k {
        assert ms[i] == ns[i - 1] && old(Placed(h, ns, i - 1));
      }
    }
  }

  /** hlist_add_after(n, next) puts `next` behind the node n that is already on the list. */
  method AddAfter(n: HNode, next: HNode, ghost h: HHead, ghost ns: seq<HNode>, ghost k: nat)
    requires IsHList(h, ns) && next !in ns && k < |ns| && ns[k] == n
    modifies next, n, NodeSet(ns, k + 1)
    ensures IsHList(h, InsertAt(ns, k + 1, next))
  {
    assert Placed(h, ns, k);
    next.next := n.next;
    n.next := next;
    next.pprev := NextOf(n);
    if next.next != null {
      next.next.pprev := NextOf(next);
    }
    ghost var ms := InsertAt(ns, k + 1, next);
    forall i | 0 <= i < |ms|
      ensures Placed(h, ms, i)
    {
      if i <= k {
        assert ms[i] == ns[i] && old(Placed(h, ns, i));
      } else if i > k + 1 {
        assert ms[i] == ns[i - 1] && old(Placed(h, ns, i - 1));
      }
    }
  }

  /** A node that names its own slot can be deleted as if it were on a list. */
  method AddFake(n: HNode)
    modifies n
    ensures n.pprev == NextOf(n) && n.next == old(n.next)
  {
    n.pprev := NextOf(n);
  }

  /** The node is reset; if it had a successor, that one's pprev now names the node's own slot. */
  method DelFake(n: HNode)
    requires n.pprev == NextOf(n)
    modifies n, if n.next == null then {} else {n.next}
    ensures n.pprev == NoSlot && n.next == null
    ensures var m := old(n.next); m != null && m != n ==> m.pprev == NextOf(n) && m.next == old(m.next)
  {
    var next, pprev := n.next, n.pprev;
    Store(pprev, next);
    if next != null {
      next.pprev := pprev;
    }
    InitNode(n);
  }

  /** hlist_move_list: whatever the new head pointed at is forgotten. */
  method MoveList(h: HHead, g: HHead, ghost ns: seq<HNode>)
    requires IsHList(h, ns) && h != g
    modifies h, g, NodeSet(ns, 0)
    ensures IsHList(g, ns) && IsHList(h, [])
  {
    g.first := h.first;
    if g.first != null {
      g.first.pprev := FirstOf(g);
    }
    h.first := null;
    forall i | 0 <= i < |ns|
      ensures Placed(g, ns, i)
    {
      assert old(Placed(h, ns, i));
    }
  }

  /** hlist_for_each visits the nodes in order. */
  method ForEach(h: HHead, ghost ns: seq<HNode>) returns (visited: seq<HNode>)
    requires IsHList(h, ns)
    ensures visited == ns
  {
    visited := [];
    var pos := h.first;
    while pos != null
      invariant |visited| <= |ns| && visited == ns[..|visited|]
      invariant pos == NodeAt(ns, |visited|)
      decreases |ns| - |visited|
    {
      assert Placed(h, ns, |visited|);
      visited := visited + [pos];
      pos := pos.next;
    }
  }
}
