/** The circular doubly linked list whose nodes sit inside other records. A list is a ring of
    nodes that starts at its head; the sequence behind the head is its contents. */
module IntrusiveList {
  import opened Sequences

  class DLNode {
    var pstPrev: DLNode?
    var pstNext: DLNode?

    constructor ()
      ensures pstPrev == null && pstNext == null
    {
      pstPrev, pstNext := null, null;
    }
  }

  predicate Distinct<T(==)>(r: seq<T>) {
    forall i, j :: 0 <= i < j < |r| ==> r[i] != r[j]
  }

  /** a is followed by b. */
  predicate Linked(a: DLNode, b: DLNode)
    reads a, b
  {
    a.pstNext == b && b.pstPrev == a
  }

  /** The nodes of r, in order, are linked into one circle. */
  ghost predicate Ring(r: seq<DLNode>)
    reads r
  {
    && |r| > 0 && Distinct(r)
    && (forall i :: 0 < i < |r| ==> Linked(r[i - 1], r[i]))
    && Linked(r[|r| - 1], r[0])
  }

  function Insert<T>(r: seq<T>, i: nat, x: T): seq<T>
    requires i <= |r|
  {
    r[..i] + [x] + r[i..]
  }

  function Remove<T>(r: seq<T>, i: nat): seq<T>
    requires i < |r|
  {
    r[..i] + r[i + 1..]
  }

  /** The list behind a head is determined by the links alone. */
  lemma {:induction false} SamePrefix(r: seq<DLNode>, q: seq<DLNode>, k: nat)
    requires Ring(r) && Ring(q) && r[0] == q[0] && k < |r| && k < |q|
    ensures r[k] == q[k]
  {
    if k > 0 {
      SamePrefix(r, q, k - 1);
      assert Linked(r[k - 1], r[k]) && Linked(q[k - 1], q[k]);
    }
  }

  lemma NotLonger(r: seq<DLNode>, q: seq<DLNode>)
    requires Ring(r) && Ring(q) && r[0] == q[0]
    ensures |q| <= |r|
  {
    SamePrefix(r, q, if |r| < |q| then |r| - 1 else 0);
  }

  lemma OneRing(r: seq<DLNode>, q: seq<DLNode>)
    requires Ring(r) && Ring(q) && r[0] == q[0]
    ensures r == q
  {
    NotLonger(r, q);
    NotLonger(q, r);
    forall k | 0 <= k < |r| ensures r[k] == q[k] {
      SamePrefix(r, q, k);
    }
  }

  /** The member behind position i, the head behind the last. */
  function After<T>(r: seq<T>, i: nat): T
    requires i < |r|
  {
    if i + 1 < |r| then r[i + 1] else r[0]
  }

  lemma LinkedAfter(r: seq<DLNode>, i: nat)
    requires Ring(r) && i < |r|
    ensures Linked(r[i], After(r, i))
    ensures |r| > 1 ==> r[i] != After(r, i)
  {
    assert 0 < i + 1 < |r| ==> Linked(r[i + 1 - 1], r[i + 1]);
  }

  // ----- operations

  method DLListInit(list: DLNode)
    modifies list
    ensures Ring([list])
  {
    list.pstNext := list;
    list.pstPrev := list;
  }

  /** Puts node behind the member list of a ring. */
  method DLListAdd(list: DLNode, node: DLNode, ghost r: seq<DLNode>, ghost i: nat)
    requires Ring(r) && i < |r| && list == r[i] && node !in r
    modifies list, list.pstNext, node
    ensures Ring(Insert(r, i + 1, node))
  {
    LinkedAfter(r, i);
    ghost var next := After(r, i);
    node.pstNext := list.pstNext;
    node.pstPrev := list;
    list.pstNext.pstPrev := node;
    list.pstNext := node;
    ghost var q := Insert(r, i + 1, node);
    assert Linked(list, node) && Linked(node, next);
    forall j | 0 < j < |q| ensures Linked(q[j - 1], q[j]) {
      if j > i + 2 {
        assert Linked(r[j - 2], r[j - 1]);
      } else if j < i + 1 {
        assert Linked(r[j - 1], r[j]);
      }
    }
  }

  /** A new node behind the head comes first. */
  method DLListInsert(head: DLNode, node: DLNode, ghost contents: seq<DLNode>)
    requires Ring([head] + contents) && node !in [head] + contents
    modifies head, head.pstNext, node
    ensures Ring([head] + ([node] + contents))
  {
    DLListAdd(head, node, [head] + contents, 0);
    assert Insert([head] + contents, 1, node) == [head] + ([node] + contents);
  }

  /** A new node before the head comes last. */
  method DLListTailInsert(head: DLNode, node: DLNode, ghost contents: seq<DLNode>)
    requires Ring([head] + contents) && node !in [head] + contents
    modifies head, head.pstPrev, node
    ensures Ring([head] + (contents + [node]))
  {
    ghost var r := [head] + contents;
    DLListAdd(head.pstPrev, node, r, |contents|);
    assert Insert(r, |r|, node) == [head] + (contents + [node]);
  }

  /** Takes a node out of its ring; the node ends with null links. */
  method DLListDelete(node: DLNode, ghost r: seq<DLNode>, ghost i: nat)
    requires Ring(r) && i < |r| && node == r[i]
    modifies node, node.pstNext, node.pstPrev
    ensures |r| > 1 ==> Ring(Remove(r, i))
    ensures node.pstNext == null && node.pstPrev == null
  {
    LinkedAfter(r, i);
    ghost var before := if i > 0 then i - 1 else |r| - 1;
    LinkedAfter(r, before);
    ghost var prev, next := r[before], After(r, i);
    node.pstNext.pstPrev := node.pstPrev;
    node.pstPrev.pstNext := node.pstNext;
    node.pstNext := null;
    node.pstPrev := null;
    if |r| > 1 {
      assert Linked(prev, next);
      ghost var q := Remove(r, i);
      forall j | 0 < j < |q| ensures Linked(q[j - 1], q[j]) {
        if j < i {
          assert Linked(r[j - 1], r[j]);
        } else if j > i {
          assert Linked(r[j], r[j + 1]);
        }
      }
    }
  }

  /** Takes a node out of its ring and leaves it a ring of its own. */
  method ListDeInit(list: DLNode, ghost r: seq<DLNode>, ghost i: nat)
    requires Ring(r) && i < |r| && list == r[i]
    modifies list, list.pstNext, list.pstPrev
    ensures Ring([list])
    ensures |r| > 1 ==> Ring(Remove(r, i))
  {
    LinkedAfter(r, i);
    ghost var before := if i > 0 then i - 1 else |r| - 1;
    LinkedAfter(r, before);
    ghost var prev, next := r[before], After(r, i);
    list.pstNext.pstPrev := list.pstPrev;
    list.pstPrev.pstNext := list.pstNext;
    DLListInit(list);
    if |r| > 1 {
      assert Linked(prev, next);
      ghost var q := Remove(r, i);
      forall j | 0 < j < |q| ensures Linked(q[j - 1], q[j]) {
        if j < i {
          assert Linked(r[j - 1], r[j]);
        } else if j > i {
          assert Linked(r[j], r[j + 1]);
        }
      }
    }
  }

  method DLListEmpty(head: DLNode, ghost contents: seq<DLNode>) returns (empty: bool)
    requires Ring([head] + contents)
    ensures empty <==> contents == []
  {
    LinkedAfter([head] + contents, 0);
    empty := head.pstNext == head;
  }

  /** Where the walk stands after k members: some were deleted, the rest lie ahead. */
  function Walk(head: DLNode, contents: seq<DLNode>, drop: set<DLNode>, k: nat): seq<DLNode>
    requires k <= |contents|
  {
    [head] + Without(contents[..k], drop) + contents[k..]
  }

  lemma WalkOn(head: DLNode, contents: seq<DLNode>, drop: set<DLNode>, k: nat)
    requires k < |contents|
    ensures var r, i := Walk(head, contents, drop, k), 1 + |Without(contents[..k], drop)|;
      && i < |r| && r[i] == contents[k]
      && After(r, i) == After([head] + contents, k + 1)
      && Walk(head, contents, drop, k + 1) == if contents[k] in drop then Remove(r, i) else r
  {
    var front, w := contents[..k + 1], Without(contents[..k], drop);
    assert front[..|front| - 1] == contents[..k];
    assert Without(front, drop) == w + if contents[k] in drop then [] else [contents[k]];
    hide Without;
    WalkSplit(head, w, contents[k], contents[k + 1..]);
    assert contents[k..] == [contents[k]] + contents[k + 1..];
    AfterSplit(head, contents, k);
  }

  /** A ring cut at one member. */
  lemma WalkSplit(head: DLNode, w: seq<DLNode>, x: DLNode, rest: seq<DLNode>)
    ensures var r, i := [head] + w + ([x] + rest), 1 + |w|;
      && i < |r| && r[i] == x
      && After(r, i) == (if rest == [] then head else rest[0])
      && Remove(r, i) == [head] + w + rest
      && r == [head] + (w + [x]) + rest
  {
  }

  lemma AfterSplit(head: DLNode, contents: seq<DLNode>, k: nat)
    requires k < |contents|
    ensures After([head] + contents, k + 1) == if contents[k + 1..] == [] then head else contents[k + 1..][0]
  {
  }

  lemma WalkEnds(head: DLNode, contents: seq<DLNode>, drop: set<DLNode>)
    ensures Walk(head, contents, drop, 0) == [head] + contents
    ensures Walk(head, contents, drop, |contents|) == [head] + Without(contents, drop)
  {
    assert contents[..0] == [] && contents[..|contents|] == contents;
  }

  /** What the walk knows about the member it stands on. */
  lemma WalkAt(head: DLNode, contents: seq<DLNode>, drop: set<DLNode>, k: nat)
    requires k < |contents| && Distinct([head] + contents) && Ring(Walk(head, contents, drop, k))
    ensures contents[k] != head
    ensures contents[k].pstNext == After([head] + contents, k + 1)
    ensures contents[k].pstPrev in [head] + contents[..k]
    ensures forall n :: n in contents[..k] && n in drop ==> n != contents[k].pstPrev && n != contents[k].pstNext
  {
    var r, i := Walk(head, contents, drop, k), 1 + |Without(contents[..k], drop)|;
    WalkOn(head, contents, drop, k);
    LinkedAfter(r, i);
    LinkedAfter(r, i - 1);
    WithoutMembers(contents[..k], drop);
    assert r[i - 1] in [head] + Without(contents[..k], drop);
    forall j | 0 <= j < k ensures contents[j] != After([head] + contents, k + 1) && contents[j] != head {
      assert contents[j] == ([head] + contents)[j + 1] && head == ([head] + contents)[0];
    }
    assert contents[k] == ([head] + contents)[k + 1];
  }

  /** The traversal that is safe against removal: whatever subset of the members its body
      deletes, it visits every member once, in order, and ends. */
  method ForEachSafe(head: DLNode, drop: set<DLNode>, ghost contents: seq<DLNode>) returns (visited: seq<DLNode>)
    requires Ring([head] + contents)
    modifies head, contents
    ensures visited == contents
    ensures Ring([head] + Without(contents, drop))
    ensures forall n :: n in contents && n in drop ==> n.pstNext == null && n.pstPrev == null
  {
    hide Without, Walk, Ring;
    ghost var r := [head] + contents;
    assert Distinct(r) by { RingDistinct(r); }
    WalkEnds(head, contents, drop);
    LinkedAfter(r, 0);
    var item: DLNode := head.pstNext;
    visited := [];
    ghost var k := 0;
    while item != head
      invariant k <= |contents| && visited == contents[..k] && item == After(r, k)
      invariant Ring(Walk(head, contents, drop, k))
      invariant forall n :: n in contents[..k] && n in drop ==> n.pstNext == null && n.pstPrev == null
      decreases |contents| - k
    {
      WalkOn(head, contents, drop, k);
      WalkAt(head, contents, drop, k);
      visited := visited + [item];
      var next: DLNode := item.pstNext;
      if item in drop {
        DLListDelete(item, Walk(head, contents, drop, k), 1 + |Without(contents[..k], drop)|);
      }
      assert contents[..k + 1] == contents[..k] + [item];
      k, item := k + 1, next;
    }
  }

  /** The members from k on, seen from a ring that has lost those before. */
  lemma Apart(head: DLNode, contents: seq<DLNode>, k: nat)
    requires Distinct([head] + contents) && k <= |contents|
    ensures var node := After([head] + contents[k..], 0);
      && (node == head <==> k == |contents|)
      && (k < |contents| ==> node == contents[k])
      && (k < |contents| ==> After([head] + contents[k..], 1) == After([head] + contents[k + 1..], 0))
    ensures forall j :: 0 <= j < k ==> contents[j] !in [head] + contents[k..]
  {
    var r := [head] + contents;
    assert forall j :: 0 <= j < |contents| ==> contents[j] == r[j + 1];
    assert r[0] == head;
  }

  /** Deletes the first member and returns the one behind it. */
  method DeleteFirst(head: DLNode, node: DLNode, ghost contents: seq<DLNode>) returns (next: DLNode)
    requires Ring([head] + contents) && contents != [] && node == contents[0]
    modifies head, contents
    ensures Ring([head] + contents[1..]) && next == After([head] + contents, 1)
    ensures node.pstNext == null && node.pstPrev == null
  {
    ghost var r := [head] + contents;
    LinkedAfter(r, 1);
    LinkedAfter(r, 0);
    assert After(r, 1) in r && r[0] == head && r[1] == node;
    hide Ring;
    next := node.pstNext;
    DLListDelete(node, r, 1);
    assert Remove(r, 1) == [head] + contents[1..];
  }

  /** Deleting every member ends with a head linked to itself. */
  method DeleteAllNode(head: DLNode, ghost contents: seq<DLNode>)
    requires Ring([head] + contents)
    modifies head, contents
    ensures head.pstNext == head && head.pstPrev == head
    ensures forall n :: n in contents ==> n.pstNext == null && n.pstPrev == null
  {
    RingDistinct([head] + contents);
    hide Ring, Distinct;
    LinkedAfter([head] + contents, 0);
    Apart(head, contents, 0);
    assert contents[0..] == contents;
    var node: DLNode := head.pstNext;
    ghost var k := 0;
    while node != head
      invariant k <= |contents| && node == After([head] + contents[k..], 0) && (node == head <==> k == |contents|)
      invariant Ring([head] + contents[k..])
      invariant forall j :: 0 <= j < k ==> contents[j].pstNext == null && contents[j].pstPrev == null
      decreases |contents| - k
    {
      Apart(head, contents, k);
      Apart(head, contents, k + 1);
      assert contents[..k + 1] == contents[..k] + [node];
      assert contents[k..][1..] == contents[k + 1..];
      node := DeleteFirst(head, node, contents[k..]);
      k := k + 1;
    }
    assert [head] + contents[k..] == [head];
    LinkedAfter([head], 0);
  }

  lemma RingDistinct(r: seq<DLNode>)
    requires Ring(r)
    ensures Distinct(r)
  {
  }
}
