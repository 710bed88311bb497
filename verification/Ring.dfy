/**
 * include/cfe/list.h: circular doubly linked rings threaded through their entries.
 * Each operation writes a few raw pointers; each contract says which sequence operation that is
 * on the whole ring, and the frame says that no other node is touched.
 */
module Ring {
  import opened Sequences

  class Node {
    var next: Node?
    var prev: Node?

    constructor ()
      ensures next == null && prev == null
    {
      next, prev := null, null;
    }
  }

  /** b follows a, and a precedes b. */
  ghost predicate Adjacent(a: Node, b: Node)
    reads a, b
  {
    a.next == b && b.prev == a
  }

  /** The nodes of r, in this order, form one ring. */
  ghost predicate IsRing(r: seq<Node>)
    reads r
  {
    && r != []
    && NoRepeats(r)
    && (forall i :: 0 <= i < |r| - 1 ==> Adjacent(r[i], r[i + 1]))
    && Adjacent(r[|r| - 1], r[0])
  }

  /** head is the list head of a ring with the entries xs. */
  ghost predicate IsList(head: Node, xs: seq<Node>)
    reads head, xs
  {
    IsRing([head] + xs)
  }

  ghost function Follower(r: seq<Node>, k: nat): Node
    requires k < |r|
  {
    if k + 1 < |r| then r[k + 1] else r[0]
  }

  ghost function Leader(r: seq<Node>, k: nat): Node
    requires k < |r|
  {
    if k > 0 then r[k - 1] else r[|r| - 1]
  }

  ghost predicate Apart(r: seq<Node>, q: seq<Node>) {
    forall i, j :: 0 <= i < |r| && 0 <= j < |q| ==> r[i] != q[j]
  }

  function Reversed(s: seq<Node>): seq<Node> {
    if s == [] then [] else Reversed(s[1..]) + [s[0]]
  }

  /** A ring may be entered at any node. */
  lemma Rotate(r: seq<Node>, k: nat)
    requires IsRing(r) && k < |r|
    ensures IsRing(r[k..] + r[..k])
  {
    var q := r[k..] + r[..k];
    forall i | 0 <= i < |q| - 1
      ensures Adjacent(q[i], q[i + 1])
    {
      if i + 1 < |r| - k {
        assert q[i] == r[k + i] && q[i + 1] == r[k + i + 1];
      } else if i >= |r| - k {
        assert q[i] == r[i - (|r| - k)] && q[i + 1] == r[i + 1 - (|r| - k)];
      }
    }
  }

  /** Each node's successor has it as predecessor, and the other way round. */
  lemma Neighbours(r: seq<Node>, k: nat)
    requires IsRing(r) && k < |r|
    ensures r[k].next == Follower(r, k) && r[k].prev == Leader(r, k)
    ensures Adjacent(r[k], Follower(r, k)) && Adjacent(Leader(r, k), r[k])
  {
    if k > 0 {
      assert Adjacent(r[k - 1], r[k]);
    }
    if k + 1 < |r| {
      assert Adjacent(r[k], r[k + 1]);
    }
  }

  /** The entries of a list are determined by its head: two walks along `next` agree. */
  lemma {:induction false} OneWalk(r: seq<Node>, q: seq<Node>, k: nat)
    requires IsRing(r) && IsRing(q) && r[0] == q[0]
    requires k < |r| && k < |q|
    ensures r[k] == q[k]
  {
    if k > 0 {
      OneWalk(r, q, k - 1);
      assert Adjacent(r[k - 1], r[k]) && Adjacent(q[k - 1], q[k]);
    }
  }

  lemma RingUnique(r: seq<Node>, q: seq<Node>)
    requires IsRing(r) && IsRing(q) && r[0] == q[0]
    ensures r == q
  {
    assert |r| < |q| ==> Adjacent(q[|r| - 1], q[|r|]);
    assert |q| < |r| ==> Adjacent(r[|q| - 1], r[|q|]);
    forall k | 0 <= k < |r| && k < |q|
      ensures r[k] == q[k]
    {
      OneWalk(r, q, k);
    }
  }

  // ---------- initialising, adding ----------

  method Init(list: Node)
    modifies list
    ensures IsList(list, [])
  {
    list.next := list;
    list.prev := list;
  }

  /** __list_add */
  method AddBetween(n: Node, prev: Node, next: Node)
    requires n != prev && n != next
    modifies next`prev, n, prev`next
    ensures Adjacent(prev, n) && Adjacent(n, next)
  {
    next.prev := n;
    n.next := next;
    n.prev := prev;
    prev.next := n;
  }

  method Add(n: Node, head: Node, ghost xs: seq<Node>)
    requires IsList(head, xs) && n !in [head] + xs
    modifies n, head`next, Follower([head] + xs, 0)`prev
    ensures IsList(head, [n] + xs)
  {
    ghost var r := [head] + xs;
    Neighbours(r, 0);
    AddBetween(n, head, head.next);
    ghost var r' := [head] + ([n] + xs);
    assert forall i :: 2 <= i < |r'| ==> r'[i] == r[i - 1];
    forall i | 0 <= i < |r'| - 1
      ensures Adjacent(r'[i], r'[i + 1])
    {
      if i >= 2 {
        assert old(Adjacent(r[i - 1], r[i]));
      }
    }
    assert Adjacent(r'[|r'| - 1], r'[0]);
  }

  method AddTail(n: Node, head: Node, ghost xs: seq<Node>)
    requires IsList(head, xs) && n !in [head] + xs
    modifies n, head`prev, Leader([head] + xs, 0)`next
    ensures IsList(head, xs + [n])
  {
    ghost var r := [head] + xs;
    Neighbours(r, 0);
    AddBetween(n, head.prev, head);
    ghost var r' := [head] + (xs + [n]);
    assert r' == r + [n];
    forall i | 0 <= i < |r'| - 1
      ensures Adjacent(r'[i], r'[i + 1])
    {
      if i < |r| - 1 {
        assert r'[i] == r[i] && r'[i + 1] == r[i + 1];
      }
    }
  }

  // ---------- deleting ----------

  /** __list_del */
  method Join(prev: Node, next: Node)
    modifies next`prev, prev`next
    ensures Adjacent(prev, next)
  {
    next.prev := prev;
    prev.next := next;
  }

  /** Joining the neighbours of node k takes it out of the ring; its own pointers are left dangling. */
  method Unlink(entry: Node, ghost r: seq<Node>, ghost k: nat)
    requires IsRing(r) && k < |r| && r[k] == entry
    modifies Leader(r, k)`next, Follower(r, k)`prev
    ensures |r| > 1 ==> IsRing(Cut(r, k))
    ensures |r| == 1 ==> IsRing(r)
  {
    Neighbours(r, k);
    Join(entry.prev, entry.next);
    ghost var q := Cut(r, k);
    if |r| > 1 {
      forall i | 0 <= i < |q| - 1
        ensures Adjacent(q[i], q[i + 1])
      {
        if i + 1 < k {
          assert q[i] == r[i] && q[i + 1] == r[i + 1];
        } else if i >= k {
          assert q[i] == r[i + 1] && q[i + 1] == r[i + 2];
        }
      }
    }
  }

  method Del(entry: Node?, ghost r: seq<Node>, ghost k: nat)
    requires entry != null ==> IsRing(r) && k < |r| && r[k] == entry
    modifies if entry == null then {} else {entry, Leader(r, k), Follower(r, k)}
    ensures entry != null ==> entry.next == null && entry.prev == null
    ensures entry != null && |r| > 1 ==> IsRing(Cut(r, k))
  {
    if entry == null {
      return;
    }
    Unlink(entry, r, k);
    entry.next := null;
    entry.prev := null;
  }

  /** An entry that is alone in its own ring stays so: deleting it again changes nothing. */
  method DelInit(entry: Node, ghost r: seq<Node>, ghost k: nat)
    requires IsRing(r) && k < |r| && r[k] == entry
    modifies entry, Leader(r, k)`next, Follower(r, k)`prev
    ensures IsList(entry, [])
    ensures |r| > 1 ==> IsRing(Cut(r, k))
  {
    Unlink(entry, r, k);
    Init(entry);
  }

  // ---------- moving ----------

  /** The list that gains the entry, without it. */
  ghost function Others(src: seq<Node>, k: nat, head: Node, xs: seq<Node>): seq<Node>
    requires k < |src|
  {
    if src == [head] + xs && k > 0 then Cut(xs, k - 1) else xs
  }

  lemma OthersList(src: seq<Node>, k: nat, head: Node, xs: seq<Node>)
    requires k < |src| && (src == [head] + xs ==> k > 0)
    ensures src == [head] + xs ==> [head] + Others(src, k, head, xs) == Cut(src, k)
  {
  }

  /** list_move, within a ring and from one ring to another. */
  method Move(entry: Node, head: Node, ghost src: seq<Node>, ghost k: nat, ghost xs: seq<Node>)
    requires IsRing(src) && k < |src| && src[k] == entry
    requires IsList(head, xs)
    requires (src == [head] + xs && k > 0) || Apart(src, [head] + xs)
    modifies src, head, xs
    ensures IsList(head, [entry] + Others(src, k, head, xs))
    ensures src != [head] + xs && |src| > 1 ==> IsRing(Cut(src, k))
  {
    Unlink(entry, src, k);
    OthersList(src, k, head, xs);
    assert entry !in [head] + Others(src, k, head, xs);
    Add(entry, head, Others(src, k, head, xs));
  }

  method MoveTail(entry: Node, head: Node, ghost src: seq<Node>, ghost k: nat, ghost xs: seq<Node>)
    requires IsRing(src) && k < |src| && src[k] == entry
    requires IsList(head, xs)
    requires (src == [head] + xs && k > 0) || Apart(src, [head] + xs)
    modifies src, head, xs
    ensures IsList(head, Others(src, k, head, xs) + [entry])
    ensures src != [head] + xs && |src| > 1 ==> IsRing(Cut(src, k))
  {
    Unlink(entry, src, k);
    OthersList(src, k, head, xs);
    assert entry !in [head] + Others(src, k, head, xs);
    AddTail(entry, head, Others(src, k, head, xs));
  }

  // ---------- splicing ----------

  method IsEmpty(head: Node, ghost xs: seq<Node>) returns (empty: bool)
    requires IsList(head, xs)
    ensures empty <==> xs == []
  {
    Neighbours([head] + xs, 0);
    empty := head.next == head;
  }

  /** list_splice: the entries of list come first; the head of list itself keeps pointing at them. */
  method Splice(list: Node, head: Node, ghost xs: seq<Node>, ghost ys: seq<Node>)
    requires IsList(list, xs) && IsList(head, ys) && Apart([list] + xs, [head] + ys)
    modifies xs, head, ys
    ensures IsList(head, xs + ys)
    ensures xs == [] ==> unchanged(head) && forall i :: 0 <= i < |ys| ==> unchanged(ys[i])
  {
    ghost var l, h := [list] + xs, [head] + ys;
    Neighbours(l, 0);
    Neighbours(h, 0);
    var empty := IsEmpty(list, xs);
    if !empty {
      Neighbours(l, 1);
      Neighbours(l, |xs|);
      var first, last, at := list.next, list.prev, head.next;
      first.prev := head;
      head.next := first;
      last.next := at;
      at.prev := last;
      ghost var q := [head] + (xs + ys);
      assert forall i :: 1 <= i <= |xs| ==> q[i] == l[i];
      assert forall i :: |xs| < i < |q| ==> q[i] == h[i - |xs|];
      forall i | 0 <= i < |q| - 1
        ensures Adjacent(q[i], q[i + 1])
      {
        if 1 <= i < |xs| {
          assert old(Adjacent(l[i], l[i + 1]));
        } else if i > |xs| {
          assert old(Adjacent(h[i - |xs|], h[i - |xs| + 1]));
        }
      }
      assert Adjacent(q[|q| - 1], q[0]);
    } else {
      assert xs + ys == ys;
    }
  }

  lemma HeadApart(list: Node, head: Node, xs: seq<Node>, ys: seq<Node>)
    requires NoRepeats([list] + xs) && Apart([list] + xs, [head] + ys)
    ensures list !in [head] + (xs + ys)
  {
    var l, h := [list] + xs, [head] + ys;
    assert l[0] == list && h[0] == head;
    assert forall i :: 0 <= i < |xs| ==> l[i + 1] == xs[i];
    assert forall i :: 0 <= i < |ys| ==> h[i + 1] == ys[i];
  }

  /** list_splice_init also resets the emptied list. */
  method SpliceInit(list: Node, head: Node, ghost xs: seq<Node>, ghost ys: seq<Node>)
    requires IsList(list, xs) && IsList(head, ys) && Apart([list] + xs, [head] + ys)
    modifies list, xs, head, ys
    ensures IsList(head, xs + ys) && IsList(list, [])
  {
    var empty := IsEmpty(list, xs);
    HeadApart(list, head, xs, ys);
    if !empty {
      Splice(list, head, xs, ys);
      Init(list);
    } else {
      assert xs + ys == ys;
    }
  }

  // ---------- walking ----------

  /** list_for_each visits the entries in order. */
  method ForEach(head: Node, ghost xs: seq<Node>) returns (visited: seq<Node>)
    requires IsList(head, xs)
    ensures visited == xs
  {
    visited := [];
    ghost var r := [head] + xs;
    Neighbours(r, 0);
    var pos := head.next;
    while pos != head
      invariant |visited| <= |xs| && visited == xs[..|visited|]
      invariant pos == Follower(r, |visited|)
      decreases |xs| - |visited|
    {
      Neighbours(r, |visited| + 1);
      visited := visited + [pos];
      pos := pos.next;
    }
  }

  lemma {:induction false} ReversedSplit(s: seq<Node>, k: nat)
    requires k < |s|
    ensures Reversed(s[k..]) == Reversed(s[k + 1..]) + [s[k]]
  {
    assert s[k..][1..] == s[k + 1..];
  }

  /** list_for_each_prev visits them in the opposite order. */
  method ForEachPrev(head: Node, ghost xs: seq<Node>) returns (visited: seq<Node>)
    requires IsList(head, xs)
    ensures visited == Reversed(xs)
  {
    visited := [];
    ghost var r := [head] + xs;
    Neighbours(r, 0);
    var pos := head.prev;
    ghost var left: nat := |xs|;
    while pos != head
      invariant left <= |xs| && pos == r[left]
      invariant visited == Reversed(xs[left..])
      decreases left
    {
      Neighbours(r, left);
      left := left - 1;
      ReversedSplit(xs, left);
      visited := visited + [pos];
      pos := pos.prev;
    }
    assert xs[0..] == xs;
  }

  /** What is left of a list when the nodes in gone are removed. */
  function Remaining(xs: seq<Node>, gone: set<Node>): (rest: seq<Node>)
    ensures forall j :: 0 <= j < |rest| ==> rest[j] in xs && rest[j] !in gone
  {
    if xs == [] then []
    else if xs[|xs| - 1] in gone then Remaining(xs[..|xs| - 1], gone)
    else Remaining(xs[..|xs| - 1], gone) + [xs[|xs| - 1]]
  }

  lemma RemainingStep(xs: seq<Node>, gone: set<Node>, i: nat)
    requires i < |xs|
    ensures Remaining(xs[..i + 1], gone) == Remaining(xs[..i], gone) + if xs[i] in gone then [] else [xs[i]]
  {
    assert xs[..i + 1][..i] == xs[..i];
  }

  /** A removed node: reset by list_del_init, or cleared by list_del. */
  ghost predicate Removed(x: Node, reset: set<Node>)
    reads x
  {
    if x in reset then IsList(x, []) else x.next == null && x.prev == null
  }

  /** The first i entries have been visited. */
  ghost predicate Walked(head: Node, xs: seq<Node>, gone: set<Node>, reset: set<Node>, i: nat)
    requires i <= |xs|
    reads head, xs
  {
    && IsList(head, Remaining(xs[..i], gone) + xs[i..])
    && forall j :: 0 <= j < i && xs[j] in gone ==> Removed(xs[j], reset)
  }

  /**
   * list_for_each_safe with a body that removes the current entry whenever it is in gone, by
   * list_del_init if it is in reset too and by list_del otherwise: every entry is visited exactly
   * once and in order, and the others remain.
   */
  method ForEachSafe(head: Node, gone: set<Node>, reset: set<Node>, ghost xs: seq<Node>) returns (visited: seq<Node>)
    requires IsList(head, xs)
    modifies head, xs
    ensures visited == xs
    ensures IsList(head, Remaining(xs, gone))
    ensures forall i :: 0 <= i < |xs| && xs[i] in gone ==> Removed(xs[i], reset)
  {
    visited := [];
    ghost var i: nat := 0;
    WalkStart(head, xs, gone, reset);
    var pos := head.next;
    var n := pos.next;
    while pos != head
      invariant i <= |xs| && visited == xs[..i]
      invariant Walked(head, xs, gone, reset, i)
      invariant pos == if i < |xs| then xs[i] else head
      invariant i < |xs| ==> n == if i + 1 < |xs| then xs[i + 1] else head
      decreases |xs| - i
    {
      visited := visited + [pos];
      RemoveIf(pos, head, gone, reset, xs, i);
      i := i + 1;
      pos := n;
      NextAt(head, xs, gone, reset, i);
      n := pos.next;
    }
    WalkEnd(head, xs, gone, reset, i);
  }

  lemma WalkStart(head: Node, xs: seq<Node>, gone: set<Node>, reset: set<Node>)
    requires IsList(head, xs)
    ensures head !in xs
    ensures Walked(head, xs, gone, reset, 0)
    ensures head.next == if xs != [] then xs[0] else head
    ensures head.next != null
    ensures xs != [] ==> xs[0].next == if |xs| > 1 then xs[1] else head
  {
    HeadNotEntry(head, xs);
    assert [] + xs == xs && xs[0..] == xs;
    NextEntry(head, [], xs);
  }

  lemma WalkEnd(head: Node, xs: seq<Node>, gone: set<Node>, reset: set<Node>, i: nat)
    requires i == |xs| && Walked(head, xs, gone, reset, i)
    ensures IsList(head, Remaining(xs, gone)) && xs[..i] == xs
    ensures forall j :: 0 <= j < |xs| && xs[j] in gone ==> Removed(xs[j], reset)
  {
    assert xs[..i] == xs;
    assert Remaining(xs, gone) + xs[i..] == Remaining(xs, gone);
  }

  lemma HeadNotEntry(head: Node, xs: seq<Node>)
    requires NoRepeats([head] + xs)
    ensures head !in xs && NoRepeats(xs)
  {
    var l := [head] + xs;
    assert l[0] == head;
    assert forall j :: 0 <= j < |xs| ==> l[j + 1] == xs[j];
  }

  /** The node after an entry; the node after the head when there is none before. */
  lemma NextEntry(head: Node, before: seq<Node>, rest: seq<Node>)
    requires IsList(head, before + rest)
    ensures rest != [] ==> rest[0].next == if |rest| > 1 then rest[1] else head
    ensures before == [] ==> head.next == if rest != [] then rest[0] else head
    ensures head.next != null
  {
    var r := [head] + (before + rest);
    Neighbours(r, 0);
    if rest != [] {
      assert r[|before| + 1] == rest[0];
      assert |rest| > 1 ==> r[|before| + 2] == rest[1];
      Neighbours(r, |before| + 1);
    }
  }

  lemma NextAt(head: Node, xs: seq<Node>, gone: set<Node>, reset: set<Node>, i: nat)
    requires i <= |xs| && Walked(head, xs, gone, reset, i)
    ensures i < |xs| ==> xs[i].next == if i + 1 < |xs| then xs[i + 1] else head
    ensures head.next != null
  {
    NextEntry(head, Remaining(xs[..i], gone), xs[i..]);
  }

  lemma CutEntry(head: Node, done: seq<Node>, xs: seq<Node>, i: nat)
    requires i < |xs|
    ensures Cut([head] + (done + xs[i..]), |done| + 1) == [head] + (done + [] + xs[i + 1..])
  {
    assert ([head] + (done + xs[i..]))[..|done| + 1] == [head] + done;
  }

  /** The loop body at entry i. */
  method RemoveIf(pos: Node, head: Node, gone: set<Node>, reset: set<Node>, ghost xs: seq<Node>, ghost i: nat)
    requires NoRepeats([head] + xs) && i < |xs| && pos == xs[i]
    requires Walked(head, xs, gone, reset, i)
    modifies head, xs
    ensures Walked(head, xs, gone, reset, i + 1)
  {
    ghost var done := Remaining(xs[..i], gone);
    ghost var r := [head] + (done + xs[i..]);
    RemainingStep(xs, gone, i);
    if pos in gone {
      RingWithin(head, xs, gone, i);
      var k := |done| + 1;
      assert Leader(r, k) in r && Follower(r, k) in r && pos in r;
      CutEntry(head, done, xs, i);
      if pos in reset {
        DelInit(pos, r, k);
      } else {
        Del(pos, r, k);
      }
    } else {
      assert done + xs[i..] == (done + [xs[i]]) + xs[i + 1..];
    }
  }

  /** The ring in the middle of the walk holds entries of the list and none that was removed. */
  lemma RingWithin(head: Node, xs: seq<Node>, gone: set<Node>, i: nat)
    requires NoRepeats([head] + xs) && i < |xs|
    ensures var r := [head] + (Remaining(xs[..i], gone) + xs[i..]);
            && (forall x :: x in r ==> x == head || x in xs)
            && (forall j :: 0 <= j < i && xs[j] in gone ==> xs[j] !in r)
  {
    var r := [head] + (Remaining(xs[..i], gone) + xs[i..]);
    HeadNotEntry(head, xs);
    forall k | 0 <= k < |r|
      ensures r[k] == head || r[k] in xs
    {
      if k > |Remaining(xs[..i], gone)| {
        assert r[k] == xs[k - 1 - |Remaining(xs[..i], gone)| + i];
      } else if k > 0 {
        assert r[k] == Remaining(xs[..i], gone)[k - 1] && r[k] in xs[..i];
      }
    }
    forall j, k | 0 <= j < i && xs[j] in gone && 0 <= k < |r|
      ensures xs[j] != r[k]
    {
      if k > |Remaining(xs[..i], gone)| {
        assert r[k] == xs[k - 1 - |Remaining(xs[..i], gone)| + i];
      } else if k > 0 {
        assert r[k] == Remaining(xs[..i], gone)[k - 1];
      }
    }
  }
}
