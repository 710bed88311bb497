/**
 * The ring of a registry as the source has it: a list head, and a list node embedded in every type.
 * The sequence of types that the step machine calls the ring is what a walk along `next` visits.
 */
module TypeLists {
  import opened Options
  import opened Sequences
  import opened Ring
  import opened Catalog
  import opened Machine
  import opened Invariant
  import opened Preservation

  /** The nodes embedded in the types of a ring. */
  ghost function NodesOf(nodes: map<TypeObj, Node>, ring: seq<TypeObj>): (xs: seq<Node>)
    requires forall t :: t in ring ==> t in nodes
    ensures |xs| == |ring| && forall j :: 0 <= j < |xs| ==> xs[j] == nodes[ring[j]]
  {
    seq(|ring|, j requires 0 <= j < |ring| => nodes[ring[j]])
  }

  /** A node that points at itself, as list_del_init leaves it. */
  ghost predicate Alone(x: Node)
    reads x
  {
    x.next == x && x.prev == x
  }

  lemma AloneIsRing(x: Node)
    ensures Alone(x) <==> IsRing([x])
    ensures Alone(x) <==> IsList(x, [])
  {
    assert [x] + [] == [x];
    assert [x][0] == x;
  }

  /** Each node is embedded in one type, and the list head in none. */
  ghost predicate Embedded(nodes: map<TypeObj, Node>, owner: map<Node, TypeObj>, head: Node) {
    forall t :: t in nodes ==> nodes[t] != head && nodes[t] in owner && owner[nodes[t]] == t
  }

  /** The nodes of types that are not on the list. */
  ghost function Loose(nodes: map<TypeObj, Node>, ring: seq<TypeObj>): set<Node> {
    set t | t in nodes && t !in ring :: nodes[t]
  }

  ghost predicate AllAlone(loose: set<Node>)
    reads loose
  {
    forall x :: x in loose ==> Alone(x)
  }

  /** head's list holds xs, and the nodes in loose are on no list. */
  ghost predicate Threads(head: Node, xs: seq<Node>, loose: set<Node>)
    reads head, xs, loose
  {
    IsList(head, xs) && AllAlone(loose) && forall x :: x in loose ==> x !in [head] + xs
  }

  // ---------- the two list operations on bare nodes ----------

  /** list_add_tail, whatever the new node pointed at */
  method Append(head: Node, node: Node, ghost xs: seq<Node>, ghost loose: set<Node>)
    requires Threads(head, xs, loose) && node !in [head] + xs
    modifies head, xs, node
    ensures Threads(head, xs + [node], loose - {node})
  {
    AddTail(node, head, xs);
    assert forall x :: x in loose - {node} ==> unchanged(x);
  }

  lemma CutApart(r: seq<Node>, k: nat)
    requires NoRepeats(r) && k < |r|
    ensures r[k] !in Cut(r, k)
    ensures forall x :: x in Cut(r, k) ==> x in r
  {
  }

  /** list_del_init: an entry leaves its list, and a node that is alone stays as it is. */
  method Detach(head: Node, entry: Node, ghost xs: seq<Node>, ghost loose: set<Node>, ghost linked: bool, ghost j: nat)
    requires Threads(head, xs, loose)
    requires if linked then j < |xs| && xs[j] == entry else entry in loose
    modifies entry, if linked then {head} + (set x | x in xs) else {}
    ensures Threads(head, if linked then Cut(xs, j) else xs, loose + {entry})
    ensures !linked ==> entry.next == old(entry.next) && entry.prev == old(entry.prev)
  {
    ghost var r, k := [entry], 0;
    AloneIsRing(entry);
    if linked {
      r, k := [head] + xs, j + 1;
      assert Cut(r, k) == [head] + Cut(xs, j);
      CutApart(r, k);
    }
    DelInit(entry, r, k);
    AloneIsRing(entry);
    assert forall x :: x in loose && x != entry ==> unchanged(x);
  }

  // ---------- what they are on types ----------

  lemma LinkNodes(nodes: map<TypeObj, Node>, owner: map<Node, TypeObj>, head: Node, ring: seq<TypeObj>, t: TypeObj,
                  node: Node)
    requires Embedded(nodes, owner, head) && (forall u :: u in ring ==> u in nodes)
    requires t !in ring && node != head && if t in nodes then node == nodes[t] else node !in nodes.Values
    ensures Embedded(nodes[t := node], owner[node := t], head)
    ensures node !in [head] + NodesOf(nodes, ring)
    ensures NodesOf(nodes[t := node], ring + [t]) == NodesOf(nodes, ring) + [node]
    ensures Loose(nodes[t := node], ring + [t]) == Loose(nodes, ring) - {node}
  {
    forall j | 0 <= j < |ring|
      ensures nodes[ring[j]] != node
    {
      assert ring[j] in ring;
    }
    var before, after := Loose(nodes, ring), Loose(nodes[t := node], ring + [t]);
    forall u | u in nodes && u != t
      ensures nodes[u] != node
      ensures u !in ring + [t] <==> u !in ring
    {
      assert t in nodes ==> owner[nodes[u]] != owner[nodes[t]];
    }
    assert forall x :: x in after ==> x in before && x != node;
    forall x | x in before && x != node
      ensures x in after
    {
      var u :| u in nodes && u !in ring && nodes[u] == x;
      assert u in nodes[t := node] && u !in ring + [t] && nodes[t := node][u] == x;
    }
  }

  /** Filtering a type out of a ring cuts it at the type's one position. */
  lemma {:induction false} WithoutIsCut(ring: seq<TypeObj>, t: TypeObj, j: nat)
    requires Distinct(ring) && j < |ring| && ring[j] == t
    ensures Without(ring, t) == Cut(ring, j)
  {
    if j == 0 {
      assert t !in ring[1..];
      WithoutFacts(ring[1..], t);
    } else {
      WithoutIsCut(ring[1..], t, j - 1);
      assert [ring[0]] + Cut(ring[1..], j - 1) == Cut(ring, j);
    }
  }

  lemma NodesCut(nodes: map<TypeObj, Node>, ring: seq<TypeObj>, j: nat)
    requires j < |ring| && forall u :: u in ring ==> u in nodes
    ensures forall u :: u in Cut(ring, j) ==> u in nodes
    ensures NodesOf(nodes, Cut(ring, j)) == Cut(NodesOf(nodes, ring), j)
  {
    var xs, ys := NodesOf(nodes, Cut(ring, j)), Cut(NodesOf(nodes, ring), j);
    assert forall k :: 0 <= k < |xs| ==> xs[k] == nodes[Cut(ring, j)[k]];
  }

  lemma UnlinkNodes(nodes: map<TypeObj, Node>, ring: seq<TypeObj>, t: TypeObj) returns (j: nat)
    requires Distinct(ring) && t in nodes && forall u :: u in ring ==> u in nodes
    ensures forall u :: u in Without(ring, t) ==> u in nodes
    ensures if t in ring then j < |ring| && ring[j] == t else Without(ring, t) == ring && nodes[t] in Loose(nodes, ring)
    ensures t in ring ==> NodesOf(nodes, Without(ring, t)) == Cut(NodesOf(nodes, ring), j)
    ensures Loose(nodes, Without(ring, t)) == Loose(nodes, ring) + {nodes[t]}
  {
    j := 0;
    WithoutFacts(ring, t);
    if t in ring {
      j :| 0 <= j < |ring| && ring[j] == t;
      WithoutIsCut(ring, t, j);
      NodesCut(nodes, ring, j);
    }
  }

  class TypeList {
    const head: Node
    var nodes: map<TypeObj, Node>       // &type->next of the types ever linked
    var owner: map<Node, TypeObj>       // list_entry: the type a node is embedded in
    ghost var ring: seq<TypeObj>
    ghost var Repr: set<Node>

    /** What does not depend on the links. */
    ghost predicate Laid()
      reads this
    {
      && head in Repr && nodes.Values <= Repr
      && Embedded(nodes, owner, head)
      && forall t :: t in ring ==> t in nodes
    }

    /** The list holds the nodes of the ring in order; the node of every other type is alone. */
    ghost predicate Threaded()
      reads this, Repr
    {
      Laid() && Threads(head, NodesOf(nodes, ring), Loose(nodes, ring))
    }

    /** node is the one embedded in t, and in no other type. */
    ghost predicate Embeds(t: TypeObj, node: Node)
      reads this
    {
      if t in nodes then node == nodes[t] else node !in Repr
    }

    constructor ()
      ensures Threaded() && ring == [] && nodes == map[] && fresh(Repr)
    {
      var list := new Node();
      head := list;
      nodes, owner := map[], map[];
      ring, Repr := [], {list};
      new;
      Init(head);
      assert [head] + NodesOf(nodes, ring) == [head] + [];
    }

    /** The search loop: list_for_each with a comparison. */
    method Search(key: Label) returns (found: Option<TypeObj>)
      requires Threaded()
      ensures found.Some? ==> found.value in ring && LabelOf(found.value) == key
      ensures found.None? ==> forall t :: t in ring ==> LabelOf(t) != key
    {
      ghost var r, i := [head] + NodesOf(nodes, ring), 0;
      Neighbours(r, 0);
      var pos := head.next;
      while pos != head
        invariant i <= |ring| && pos == Follower(r, i)
        invariant forall j :: 0 <= j < i ==> LabelOf(ring[j]) != key
        decreases |ring| - i
      {
        Neighbours(r, i + 1);
        assert pos == nodes[ring[i]];
        var tmp := owner[pos];
        if LabelOf(tmp) == key {
          return Some(tmp);
        }
        pos := pos.next;
        i := i + 1;
      }
      return None;
    }

    /** list_add_tail(&type->next, &list) */
    method LinkTail(t: TypeObj, node: Node)
      requires Threaded() && t !in ring && Embeds(t, node)
      modifies this, Repr, node
      ensures Threaded() && ring == old(ring) + [t] && nodes == old(nodes)[t := node] && Repr == old(Repr) + {node}
    {
      ghost var xs, loose := NodesOf(nodes, ring), Loose(nodes, ring);
      LinkNodes(nodes, owner, head, ring, t, node);
      nodes, owner, ring, Repr := nodes[t := node], owner[node := t], ring + [t], Repr + {node};
      label Ready:
      Append(head, node, xs, loose);
      assert unchanged@Ready(this);
    }

    /** list_del_init(&type->next), of a linked or an unlinked type */
    method Unlink(t: TypeObj)
      requires Threaded() && Distinct(ring) && t in nodes
      modifies this`ring, Repr
      ensures Threaded() && ring == Without(old(ring), t)
      ensures t !in old(ring) ==> forall x :: x in Repr ==> x.next == old(x.next) && x.prev == old(x.prev)
    {
      ghost var xs, loose, linked := NodesOf(nodes, ring), Loose(nodes, ring), t in ring;
      ghost var j := UnlinkNodes(nodes, ring, t);
      ring := Without(ring, t);
      label Ready:
      Detach(head, nodes[t], xs, loose, linked, j);
      assert unchanged@Ready(this);
    }
  }
}
