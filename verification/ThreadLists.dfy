/**
 The doubly linked thread list with two sentinel nodes (kern/thread/threadlist.c). The links spell a
 sequence: every operation is the sequence operation it is named after, in both directions of the links,
 and touches only the nodes next to the place it works at.
 */
module ThreadLists {
  import opened Prelude

  /** A list node; self is the number of the thread it is embedded in, None in a sentinel. */
  class Node {
    var prev: Node?
    var next: Node?
    const self: Option<nat>

    constructor (self: Option<nat>)
      ensures prev == null && next == null && this.self == self
    {
      prev, next := null, null;
      this.self := self;
    }
  }

  function Next(s: seq<Node>, i: int): Node? { if 0 <= i + 1 < |s| then s[i + 1] else null }

  function Prev(s: seq<Node>, i: int): Node? { if 0 < i <= |s| then s[i - 1] else null }

  /** Both links of the i-th node. */
  ghost predicate Linked(s: seq<Node>, i: int)
    reads s
    requires 0 <= i < |s|
  {
    s[i].next == Next(s, i) && s[i].prev == Prev(s, i)
  }

  function InsertAt<T>(s: seq<T>, i: nat, x: T): seq<T>
    requires i <= |s|
  {
    s[..i] + [x] + s[i..]
  }

  function RemoveAt<T>(s: seq<T>, i: nat): seq<T>
    requires i < |s|
  {
    s[..i] + s[i + 1..]
  }

  function Reversed<T>(s: seq<T>): seq<T> {
    if s == [] then [] else [s[|s| - 1]] + Reversed(s[..|s| - 1])
  }

  lemma {:induction false} ReversedAt<T>(s: seq<T>, k: nat)
    requires k < |s|
    ensures |Reversed(s)| == |s| && Reversed(s)[k] == s[|s| - 1 - k]
  {
    var t := s[..|s| - 1];
    if k > 0 {
      ReversedAt(t, k - 1);
    } else if |s| > 1 {
      ReversedAt(t, 0);
    }
  }

  lemma Distinct<T>(s: seq<T>, i: nat)
    requires NoDup(s) && i < |s|
    ensures forall k :: 0 <= k < |s| && k != i ==> s[k] != s[i]
  {
  }

  lemma InsertedNoDup<T>(s: seq<T>, i: nat, x: T)
    requires NoDup(s) && i <= |s| && x !in s
    ensures var r := InsertAt(s, i, x);
            && NoDup(r) && |r| == |s| + 1 && r[i] == x
            && (forall k :: 0 <= k < i ==> r[k] == s[k]) && (forall k :: i < k < |r| ==> r[k] == s[k - 1])
  {
  }

  lemma RemovedNoDup<T>(s: seq<T>, i: nat)
    requires NoDup(s) && i < |s|
    ensures var r := RemoveAt(s, i);
            && NoDup(r) && |r| == |s| - 1 && s[i] !in r
            && (forall k :: 0 <= k < i ==> r[k] == s[k]) && (forall k :: i <= k < |r| ==> r[k] == s[k + 1])
  {
  }

  /** Between the sentinels, an insertion is an insertion. */
  lemma InnerInsert<T>(s: seq<T>, i: nat, x: T)
    requires 0 < i < |s|
    ensures var c := s[1..|s| - 1];
            && |InsertAt(s, i, x)| == |s| + 1 && InsertAt(s, i, x)[1..|s|] == InsertAt(c, i - 1, x)
            && (i == 1 ==> InsertAt(c, i - 1, x) == [x] + c) && (i == |s| - 1 ==> InsertAt(c, i - 1, x) == c + [x])
  {
    var c, r, q := s[1..|s| - 1], InsertAt(s, i, x)[1..|s|], InsertAt(s[1..|s| - 1], i - 1, x);
    assert |r| == |q| == |c| + 1;
    forall k | 0 <= k < |r| ensures r[k] == q[k] {
      assert r[k] == if k < i - 1 then s[k + 1] else if k == i - 1 then x else s[k];
    }
    assert i == 1 ==> c[..0] == [] && c[0..] == c;
    assert i == |s| - 1 ==> c[..|c|] == c && c[|c|..] == [];
  }

  lemma InnerRemove<T>(s: seq<T>, i: nat)
    requires 0 < i < |s| - 1
    ensures var c := s[1..|s| - 1];
            && |RemoveAt(s, i)| == |s| - 1 && RemoveAt(s, i)[1..|s| - 2] == RemoveAt(c, i - 1)
            && (i == 1 ==> RemoveAt(c, i - 1) == c[1..]) && (i == |s| - 2 ==> RemoveAt(c, i - 1) == c[..|c| - 1])
  {
    var c, r, q := s[1..|s| - 1], RemoveAt(s, i)[1..|s| - 2], RemoveAt(s[1..|s| - 1], i - 1);
    assert |r| == |q| == |c| - 1;
    forall k | 0 <= k < |r| ensures r[k] == q[k] {
      assert r[k] == if k < i - 1 then s[k + 1] else s[k + 2];
    }
    assert i == 1 ==> c[..0] == [];
    assert i == |s| - 2 ==> c[|c|..] == [];
  }

  /** Walking a list backwards twice is walking it forwards. */
  lemma ReversedTwice<T>(s: seq<T>)
    ensures Reversed(Reversed(s)) == s
  {
    var r := Reversed(s);
    if s != [] {
      ReversedAt(s, 0);
      ReversedAt(r, 0);
    }
    assert |Reversed(r)| == |s|;
    forall k | 0 <= k < |s| ensures Reversed(r)[k] == s[k] {
      ReversedAt(r, k);
      ReversedAt(s, |s| - 1 - k);
    }
  }

  class ThreadList {
    const head: Node
    const tail: Node
    var count: nat
    /** The nodes in list order, the sentinels included. */
    ghost var nodes: seq<Node>

    /** The links spell `nodes`, from one sentinel to the other. */
    ghost predicate Chained()
      reads this, nodes
    {
      && |nodes| >= 2 && nodes[0] == head && nodes[|nodes| - 1] == tail && NoDup(nodes)
      && (forall i :: 0 <= i < |nodes| ==> Linked(nodes, i))
      && head.self == None && tail.self == None && (forall i :: 0 < i < |nodes| - 1 ==> nodes[i].self.Some?)
    }

    ghost predicate Valid()
      reads this, nodes
    {
      Chained() && count == |nodes| - 2
    }

    ghost function At(i: int): Node
      reads this
      requires 0 <= i < |nodes|
    {
      nodes[i]
    }

    /** The listed nodes, first to last. */
    ghost function Contents(): (s: seq<Node>)
      reads this, nodes
      requires Valid()
      ensures |s| == count
    {
      nodes[1..|nodes| - 1]
    }

    constructor ()
      ensures Valid() && fresh(nodes) && Contents() == []
    {
      var h: Node := new Node(None);
      var t: Node := new Node(None);
      h.next := t;
      t.prev := h;
      head, tail := h, t;
      count := 0;
      nodes := [h, t];
    }

    method IsEmpty() returns (b: bool)
      requires Valid()
      ensures b <==> Contents() == []
    {
      b := count == 0;
    }

    // The three link operations leave the count to their callers.

    method InsertAfterNode(onlist: Node, t: Node, ghost i: nat)
      requires Chained() && i < |nodes| - 1 && nodes[i] == onlist && t !in nodes
      requires t.prev == null && t.next == null && t.self.Some?
      modifies `nodes, onlist`next, At(i + 1)`prev, t`prev, t`next
      ensures Chained() && nodes == InsertAt(old(nodes), i + 1, t)
    {
      hide NoDup, InsertAt;
      ghost var was := nodes;
      Distinct(was, i);
      Distinct(was, i + 1);
      InsertedNoDup(was, i + 1, t);
      assert Linked(was, i) && Linked(was, i + 1);
      t.prev := onlist;
      t.next := onlist.next;
      t.prev.next := t;
      t.next.prev := t;
      nodes := InsertAt(was, i + 1, t);
      forall k | 0 <= k < |nodes| ensures Linked(nodes, k) {
        assert k <= i ==> old(Linked(was, k));
        assert k > i + 1 ==> old(Linked(was, k - 1));
      }
    }

    method InsertBeforeNode(t: Node, onlist: Node, ghost i: nat)
      requires Chained() && 0 < i < |nodes| && nodes[i] == onlist && t !in nodes
      requires t.prev == null && t.next == null && t.self.Some?
      modifies `nodes, onlist`prev, At(i - 1)`next, t`prev, t`next
      ensures Chained() && nodes == InsertAt(old(nodes), i, t)
    {
      hide NoDup, InsertAt;
      ghost var was := nodes;
      Distinct(was, i);
      Distinct(was, i - 1);
      InsertedNoDup(was, i, t);
      assert Linked(was, i) && Linked(was, i - 1);
      t.prev := onlist.prev;
      t.next := onlist;
      t.prev.next := t;
      t.next.prev := t;
      nodes := InsertAt(was, i, t);
      forall k | 0 <= k < |nodes| ensures Linked(nodes, k) {
        assert k < i ==> old(Linked(was, k));
        assert k > i ==> old(Linked(was, k - 1));
      }
    }

    method RemoveNode(t: Node, ghost i: nat)
      requires Chained() && 0 < i < |nodes| - 1 && nodes[i] == t
      modifies `nodes, At(i - 1)`next, At(i + 1)`prev, t`prev, t`next
      ensures Chained() && nodes == RemoveAt(old(nodes), i)
      ensures t.prev == null && t.next == null && t !in nodes
    {
      hide NoDup, RemoveAt;
      ghost var was := nodes;
      Distinct(was, i);
      Distinct(was, i - 1);
      Distinct(was, i + 1);
      RemovedNoDup(was, i);
      assert Linked(was, i) && Linked(was, i - 1) && Linked(was, i + 1);
      t.prev.next := t.next;
      t.next.prev := t.prev;
      t.prev := null;
      t.next := null;
      nodes := RemoveAt(was, i);
      forall k | 0 <= k < |nodes| ensures Linked(nodes, k) {
        assert k < i ==> old(Linked(was, k));
        assert k >= i ==> old(Linked(was, k + 1));
      }
    }

    method AddHead(t: Node)
      requires Valid() && t !in nodes && t.prev == null && t.next == null && t.self.Some?
      modifies `nodes, `count, head`next, At(1)`prev, t`prev, t`next
      ensures Valid() && Contents() == [t] + old(Contents())
      ensures nodes == InsertAt(old(nodes), 1, t)
    {
      InnerInsert(nodes, 1, t);
      InsertAfterNode(head, t, 0);
      count := count + 1;
    }

    method AddTail(t: Node)
      requires Valid() && t !in nodes && t.prev == null && t.next == null && t.self.Some?
      modifies `nodes, `count, tail`prev, At(|nodes| - 2)`next, t`prev, t`next
      ensures Valid() && Contents() == old(Contents()) + [t]
      ensures nodes == InsertAt(old(nodes), |old(nodes)| - 1, t)
    {
      InnerInsert(nodes, |nodes| - 1, t);
      InsertBeforeNode(t, tail, |nodes| - 1);
      count := count + 1;
    }

    /** None is the NULL of an empty list. */
    method RemHead() returns (r: Node?)
      requires Valid()
      modifies this, nodes
      ensures Valid()
      ensures r == null <==> old(Contents()) == []
      ensures r == null ==> nodes == old(nodes) && unchanged(nodes)
      ensures r != null ==> r == old(Contents())[0] && Contents() == old(Contents())[1..] && r.prev == null && r.next == null
      ensures r != null ==> r !in nodes && nodes == RemoveAt(old(nodes), 1)
    {
      assert Linked(nodes, 0) && Linked(nodes, 1);
      var tln := head.next;
      if tln.next == null {
        return null;
      }
      assert |nodes| > 2;
      assert Contents()[0] == nodes[1];
      InnerRemove(nodes, 1);
      RemoveNode(tln, 1);
      count := count - 1;
      r := tln;
    }

    method RemTail() returns (r: Node?)
      requires Valid()
      modifies this, nodes
      ensures Valid()
      ensures r == null <==> old(Contents()) == []
      ensures r == null ==> nodes == old(nodes) && unchanged(nodes)
      ensures r != null ==> var s := old(Contents()); r == s[|s| - 1] && Contents() == s[..|s| - 1] && r.prev == null && r.next == null
      ensures r != null ==> r !in nodes && nodes == RemoveAt(old(nodes), |old(nodes)| - 2)
    {
      assert Linked(nodes, |nodes| - 1) && Linked(nodes, |nodes| - 2);
      var tln := tail.prev;
      if tln.prev == null {
        return null;
      }
      assert |nodes| > 2;
      assert Contents()[count - 1] == nodes[|nodes| - 2];
      InnerRemove(nodes, |nodes| - 2);
      RemoveNode(tln, |nodes| - 2);
      count := count - 1;
      r := tln;
    }

    method InsertAfter(onlist: Node, t: Node, ghost i: nat)
      requires Valid() && i < count && Contents()[i] == onlist
      requires t !in nodes && t.prev == null && t.next == null && t.self.Some?
      modifies `nodes, `count, onlist`next, At(i + 2)`prev, t`prev, t`next
      ensures Valid() && Contents() == InsertAt(old(Contents()), i + 1, t)
    {
      InnerInsert(nodes, i + 2, t);
      InsertAfterNode(onlist, t, i + 1);
      count := count + 1;
    }

    method InsertBefore(t: Node, onlist: Node, ghost i: nat)
      requires Valid() && i < count && Contents()[i] == onlist
      requires t !in nodes && t.prev == null && t.next == null && t.self.Some?
      modifies `nodes, `count, onlist`prev, At(i)`next, t`prev, t`next
      ensures Valid() && Contents() == InsertAt(old(Contents()), i, t)
    {
      InnerInsert(nodes, i + 1, t);
      InsertBeforeNode(t, onlist, i + 1);
      count := count + 1;
    }

    method Remove(t: Node, ghost i: nat)
      requires Valid() && i < count && Contents()[i] == t
      modifies `nodes, `count, At(i)`next, At(i + 2)`prev, t`prev, t`next
      ensures Valid() && Contents() == RemoveAt(old(Contents()), i) && t.prev == null && t.next == null
    {
      InnerRemove(nodes, i + 1);
      RemoveNode(t, i + 1);
      count := count - 1;
    }

    /** THREADLIST_FORALL: stops at the node without a thread, the tail. */
    method Forward() returns (s: seq<Node>)
      requires Valid()
      ensures s == Contents()
    {
      s := [];
      assert Linked(nodes, 0) && Linked(nodes, 1);
      var cur := head.next;
      while cur.self != None
        invariant |s| + 1 < |nodes| && cur == nodes[|s| + 1] && s == nodes[1..|s| + 1]
        decreases |nodes| - |s|
      {
        assert Linked(nodes, |s| + 1);
        s := s + [cur];
        cur := cur.next;
      }
    }

    /** THREADLIST_FORALL_REV visits the same nodes in the opposite order. */
    method Backward() returns (s: seq<Node>)
      requires Valid()
      ensures s == Reversed(Contents())
    {
      s := [];
      ghost var n := |nodes|;
      assert Linked(nodes, n - 1);
      var cur := tail.prev;
      while cur.self != None
        invariant |s| + 1 < n && cur == nodes[n - 2 - |s|]
        invariant forall k :: 0 <= k < |s| ==> s[k] == nodes[n - 2 - k]
        decreases n - |s|
      {
        assert Linked(nodes, n - 2 - |s|);
        s := s + [cur];
        cur := cur.prev;
      }
      ghost var c := Contents();
      assert |s| == |c|;
      if c != [] {
        ReversedAt(c, 0);
      }
      forall k | 0 <= k < |c| ensures s[k] == Reversed(c)[k] {
        ReversedAt(c, k);
      }
    }
  }

  twostate lemma Kept(l: ThreadList)
    requires old(l.Valid()) && unchanged(l) && forall x :: x in l.nodes ==> unchanged(x)
    ensures l.Valid() && l.Contents() == old(l.Contents())
  {
    forall k | 0 <= k < |l.nodes| ensures Linked(l.nodes, k) {
      assert old(Linked(l.nodes, k)) && l.nodes[k] in l.nodes;
    }
  }

  /** Moving a thread from one list to another, as migration does, disturbs no third list. */
  method Move(from: ThreadList, to: ThreadList, third: ThreadList)
    requires from != to && third != from && third != to && from.Valid() && to.Valid() && third.Valid()
    requires forall x :: x in from.nodes ==> x !in to.nodes && x !in third.nodes
    requires forall x :: x in to.nodes ==> x !in third.nodes
    requires from.Contents() != []
    modifies from, from.nodes, to, to.nodes
    ensures from.Valid() && to.Valid() && third.Valid()
    ensures from.Contents() == old(from.Contents())[1..]
    ensures to.Contents() == old(to.Contents()) + [old(from.Contents())[0]]
    ensures third.Contents() == old(third.Contents())
  {
    var t := from.RemHead();
    Kept(to);
    assert forall x :: x in from.nodes ==> x in old(from.nodes) && x != t;
    assert to.tail in to.nodes && to.At(|to.nodes| - 2) in to.nodes;
    label removed:
    to.AddTail(t);
    Kept@removed(from);
    Kept(third);
  }
}
