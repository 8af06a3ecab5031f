/**
 * The intrusive circular list of queues that may have work (list.h). A node is self-linked exactly
 * when it is not in the list.
 */
module PendingList {

  class ListNode {
    var prev: ListNode
    var next: ListNode
    ghost const home: (nat, nat)  // device and queue number of the queue it is embedded in

    /** listNodeInit */
    constructor (ghost at: (nat, nat))
      ensures prev == this && next == this && home == at
    {
      prev, next, home := this, this, at;
    }
  }

  // ---------- what the operations mean on the sequence of pending items ----------

  ghost function Without<T>(s: seq<T>, x: T): (r: seq<T>)
    ensures x !in s ==> r == s
  {
    if s == [] then [] else if s[0] == x then s[1..] else [s[0]] + Without(s[1..], x)
  }

  ghost function Enqueue<T>(s: seq<T>, x: T): (r: seq<T>)
  {
    if x in s then s else s + [x]
  }

  ghost predicate NoDuplicates<T>(s: seq<T>) {
    forall i, j :: 0 <= i < j < |s| ==> s[i] != s[j]
  }

  lemma {:induction false} WithoutAt<T>(s: seq<T>, j: nat)
    requires NoDuplicates(s) && j < |s|
    ensures Without(s, s[j]) == s[..j] + s[j + 1..]
    decreases j
  {
    if j == 0 {
    } else {
      assert s[1..][j - 1] == s[j];
      WithoutAt(s[1..], j - 1);
      assert s[0] != s[j];
      assert s[..j] == [s[0]] + s[1..][..j - 1];
    }
  }

  lemma GapFacts<T>(s: seq<T>, j: nat)
    requires NoDuplicates(s) && j < |s|
    ensures NoDuplicates(s[..j] + s[j + 1..])
    ensures forall x :: x in s[..j] + s[j + 1..] <==> x in s && x != s[j]
  {
    var rest := s[..j] + s[j + 1..];
    forall x | x in s && x != s[j]
      ensures x in rest
    {
      var i :| 0 <= i < |s| && s[i] == x;
      assert rest[if i < j then i else i - 1] == x;
    }
  }

  // ---------- whole runs of operations ----------

  datatype Op<T> = Add(x: T) | Drop(x: T) | TakeFirst

  /** The pending items after the first n operations on an empty list. */
  ghost function After<T>(ops: seq<Op<T>>, n: nat): (r: seq<T>)
    requires n <= |ops|
    decreases n
  {
    if n == 0 then []
    else
      var s := After(ops, n - 1);
      match ops[n - 1]
      case Add(x) => Enqueue(s, x)
      case Drop(x) => Without(s, x)
      case TakeFirst => if s == [] then s else s[1..]
  }

  /** The i-th operation takes x off the list. */
  ghost predicate Removes<T>(ops: seq<Op<T>>, i: nat, x: T)
    requires i < |ops|
  {
    ops[i] == Drop(x) || (ops[i].TakeFirst? && After(ops, i) != [] && After(ops, i)[0] == x)
  }

  /** Since some notification of x before operation n, nothing has taken it off. */
  ghost predicate NotifiedSince<T>(ops: seq<Op<T>>, n: nat, x: T)
    requires n <= |ops|
  {
    exists i :: 0 <= i < n && ops[i] == Add(x) && forall j :: i < j < n ==> !Removes(ops, j, x)
  }

  lemma WithoutMembers<T>(s: seq<T>, x: T)
    requires NoDuplicates(s)
    ensures NoDuplicates(Without(s, x))
    ensures forall y :: y in Without(s, x) <==> y in s && y != x
  {
    if x in s {
      var j :| 0 <= j < |s| && s[j] == x;
      WithoutAt(s, j);
      GapFacts(s, j);
    }
  }

  /** Over every run: items are pending once, and exactly those notified and not taken off since. */
  lemma {:induction false} PendingExactly<T>(ops: seq<Op<T>>, n: nat, x: T)
    requires n <= |ops|
    ensures NoDuplicates(After(ops, n))
    ensures x in After(ops, n) <==> NotifiedSince(ops, n, x)
    decreases n
  {
    if n > 0 {
      PendingExactly(ops, n - 1, x);
      var s := After(ops, n - 1);
      LastOperation(ops, n, x);
      match ops[n - 1] {
        case Add(y) =>
        case Drop(y) => WithoutMembers(s, y);
        case TakeFirst => assert s != [] ==> s == [s[0]] + s[1..];
      }
    }
  }

  lemma LastOperation<T>(ops: seq<Op<T>>, n: nat, x: T)
    requires 0 < n <= |ops|
    ensures NotifiedSince(ops, n, x) <==>
            ops[n - 1] == Add(x) || (NotifiedSince(ops, n - 1, x) && !Removes(ops, n - 1, x))
  {
  }

  class PendingList {
    const head: ListNode
    ghost const universe: set<ListNode>  // the nodes of all queues in the system
    ghost var nodes: seq<ListNode>       // the pending ones, oldest first

    /** The i-th node of the circle; positions -1 and |ns| are both the list head. */
    static ghost function At(h: ListNode, ns: seq<ListNode>, i: int): ListNode
      requires -1 <= i <= |ns|
    {
      if 0 <= i < |ns| then ns[i] else h
    }

    static ghost predicate Forward(h: ListNode, ns: seq<ListNode>)
      reads h, ns
    {
      forall i :: -1 <= i < |ns| ==> At(h, ns, i).next == At(h, ns, i + 1)
    }

    static ghost predicate Backward(h: ListNode, ns: seq<ListNode>)
      reads h, ns
    {
      forall i :: 0 <= i <= |ns| ==> At(h, ns, i).prev == At(h, ns, i - 1)
    }

    /** Positions -1 to |ns| - 1 name different nodes, and so do positions 0 to |ns|. */
    static lemma AtInjective(h: ListNode, ns: seq<ListNode>, i: int, j: int)
      requires NoDuplicates(ns) && h !in ns && -1 <= i < j <= |ns| && !(i == -1 && j == |ns|)
      ensures At(h, ns, i) != At(h, ns, j)
    {
    }

    static lemma OtherPositions(h: ListNode, ns: seq<ListNode>, i: int, j: nat)
      requires NoDuplicates(ns) && h !in ns && j < |ns| && -1 <= i <= |ns| && i != j
      ensures At(h, ns, i) != ns[j]
      ensures i < |ns| && i != j - 1 ==> At(h, ns, i) != At(h, ns, j - 1)
      ensures 0 <= i && i != j + 1 ==> At(h, ns, i) != At(h, ns, j + 1)
    {
    }

    ghost predicate Valid()
      reads this, head, universe
    {
      && head !in universe
      && (forall n :: n in nodes ==> n in universe)
      && NoDuplicates(nodes)
      && Forward(head, nodes) && Backward(head, nodes)
      && (forall n :: n in universe && n !in nodes ==> n.prev == n && n.next == n)
    }

    /** listHeadInit, after every queue's node has been initialised. */
    constructor (ghost all: set<ListNode>)
      requires forall n :: n in all ==> n.prev == n && n.next == n
      ensures Valid() && fresh(head) && universe == all && nodes == []
    {
      var h := new ListNode((0, 0));
      head, universe, nodes := h, all, [];
    }

    /** Self-linked means absent; the head is self-linked when nothing is pending. */
    lemma SelfLinkedMeansAbsent(n: ListNode)
      requires Valid() && n in universe
      ensures n.prev != n <==> n in nodes
      ensures n.next != n <==> n in nodes
      ensures head.prev == head <==> nodes == []
      ensures nodes != [] ==> head.next == nodes[0] && head.prev == nodes[|nodes| - 1]
    {
      assert At(head, nodes, -1) == head == At(head, nodes, |nodes|);
      assert At(head, nodes, -1).next == At(head, nodes, 0);
      assert At(head, nodes, |nodes|).prev == At(head, nodes, |nodes| - 1);
      if n in nodes {
        var j :| 0 <= j < |nodes| && nodes[j] == n;
        assert At(head, nodes, j) == n;
        AtInjective(head, nodes, j, j + 1);
        AtInjective(head, nodes, j - 1, j);
      }
    }

    method NodeEmbedded(n: ListNode) returns (b: bool)
      requires Valid() && n in universe
      ensures b <==> n in nodes
    {
      SelfLinkedMeansAbsent(n);
      b := n != n.prev;
    }

    method Empty() returns (b: bool)
      requires Valid()
      ensures b <==> nodes == []
    {
      assert At(head, nodes, |nodes|).prev == At(head, nodes, |nodes| - 1);
      b := !(head != head.prev);
    }

    /** listRemove on bare nodes: the neighbours are joined and nothing else moves. */
    static method Unlink(n: ListNode)
      requires n.next.prev == n && n.prev.next == n
      modifies n, n.prev, n.next
      ensures n.prev == n && n.next == n
      ensures forall m: ListNode :: old(allocated(m)) && m != n ==>
                m.next == if m == old(n.prev) then old(n.next) else old(m.next)
      ensures forall m: ListNode :: old(allocated(m)) && m != n ==>
                m.prev == if m == old(n.next) then old(n.prev) else old(m.prev)
    {
      n.next.prev := n.prev;
      n.prev.next := n.next;
      n.prev, n.next := n, n;
    }

    /** Position j lies strictly between its two neighbours, which point at it. */
    lemma Around(j: nat)
      requires Valid() && j < |nodes|
      ensures nodes[j].next == At(head, nodes, j + 1) && nodes[j].prev == At(head, nodes, j - 1)
      ensures At(head, nodes, j + 1).prev == nodes[j] && At(head, nodes, j - 1).next == nodes[j]
      ensures At(head, nodes, j + 1) != nodes[j] && At(head, nodes, j - 1) != nodes[j]
    {
      assert At(head, nodes, j) == nodes[j];
      AtInjective(head, nodes, j - 1, j);
      AtInjective(head, nodes, j, j + 1);
    }

    /** listRemove on a pending list; harmless on a node that is not in it. */
    method Remove(n: ListNode)
      requires Valid() && n in universe
      modifies this, head, universe
      ensures Valid() && nodes == Without(old(nodes), n)
      ensures n !in nodes
    {
      ghost var ns := nodes;
      ghost var j := -1;
      if n in ns {
        j :| 0 <= j < |ns| && ns[j] == n;
        Around(j);
      }
      Unlink(n);
      if j >= 0 {
        Bypassed(j);
        nodes := Without(ns, n);
      }
    }

    /** What unlinking the node at position j does to the circle. */
    twostate lemma Bypassed(j: nat)
      requires old(Valid()) && nodes == old(nodes) && j < |nodes|
      requires forall m: ListNode :: m in [head] + nodes && m != nodes[j] ==>
                 && m.next == (if m == At(head, nodes, j - 1) then At(head, nodes, j + 1) else old(m.next))
                 && m.prev == (if m == At(head, nodes, j + 1) then At(head, nodes, j - 1) else old(m.prev))
      ensures Forward(head, Without(nodes, nodes[j])) && Backward(head, Without(nodes, nodes[j]))
      ensures NoDuplicates(Without(nodes, nodes[j]))
      ensures forall x :: x in Without(nodes, nodes[j]) <==> x in nodes && x != nodes[j]
    {
      WithoutAt(nodes, j);
      GapFacts(nodes, j);
      BypassedLinks(j);
      CloseGap(head, nodes, j);
    }

    twostate lemma BypassedLinks(j: nat)
      requires old(Valid()) && nodes == old(nodes) && j < |nodes|
      requires forall m: ListNode :: m in [head] + nodes && m != nodes[j] ==>
                 && m.next == (if m == At(head, nodes, j - 1) then At(head, nodes, j + 1) else old(m.next))
                 && m.prev == (if m == At(head, nodes, j + 1) then At(head, nodes, j - 1) else old(m.prev))
      ensures ForwardSkipping(head, nodes, j) && BackwardSkipping(head, nodes, j)
    {
      AtInjective(head, nodes, j - 1, j);
      AtInjective(head, nodes, j, j + 1);
      forall i | -1 <= i < |nodes| && i != j - 1 && i != j
        ensures At(head, nodes, i).next == At(head, nodes, i + 1)
      {
        OtherPositions(head, nodes, i, j);
        assert old(At(head, nodes, i).next) == At(head, nodes, i + 1);
      }
      forall i | 0 <= i <= |nodes| && i != j + 1 && i != j
        ensures At(head, nodes, i).prev == At(head, nodes, i - 1)
      {
        OtherPositions(head, nodes, i, j);
        assert old(At(head, nodes, i).prev) == At(head, nodes, i - 1);
      }
    }

    /** All forward links are in place except that position j is bypassed. */
    static ghost predicate ForwardSkipping(h: ListNode, ns: seq<ListNode>, j: nat)
      requires j < |ns|
      reads h, ns
    {
      && At(h, ns, j - 1).next == At(h, ns, j + 1)
      && forall i :: -1 <= i < |ns| && i != j - 1 && i != j ==> At(h, ns, i).next == At(h, ns, i + 1)
    }

    static ghost predicate BackwardSkipping(h: ListNode, ns: seq<ListNode>, j: nat)
      requires j < |ns|
      reads h, ns
    {
      && At(h, ns, j + 1).prev == At(h, ns, j - 1)
      && forall i :: 0 <= i <= |ns| && i != j + 1 && i != j ==> At(h, ns, i).prev == At(h, ns, i - 1)
    }

    static lemma CloseGap(h: ListNode, ns: seq<ListNode>, j: nat)
      requires j < |ns| && ForwardSkipping(h, ns, j) && BackwardSkipping(h, ns, j)
      ensures Forward(h, ns[..j] + ns[j + 1..]) && Backward(h, ns[..j] + ns[j + 1..])
    {
      var rest := ns[..j] + ns[j + 1..];
      forall i | -1 <= i < |rest|
        ensures At(h, rest, i).next == At(h, rest, i + 1)
      {
        var i' := if i < j then i else i + 1;
        assert At(h, rest, i) == At(h, ns, i');
        assert i != j - 1 ==> At(h, ns, i').next == At(h, ns, i' + 1) == At(h, rest, i + 1);
      }
      forall i | 0 <= i <= |rest|
        ensures At(h, rest, i).prev == At(h, rest, i - 1)
      {
        var i' := if i < j then i else i + 1;
        assert At(h, rest, i) == At(h, ns, i');
        assert i != j ==> At(h, ns, i').prev == At(h, ns, i' - 1) == At(h, rest, i - 1);
      }
    }

    /** listAddTail */
    method AddTail(n: ListNode)
      requires Valid() && n in universe && n !in nodes
      modifies this, head, universe
      ensures Valid() && nodes == old(nodes) + [n]
    {
      ghost var ns := nodes;
      assert At(head, ns, |ns|).prev == At(head, ns, |ns| - 1);
      n.prev := head.prev;
      head.prev.next := n;
      n.next := head;
      head.prev := n;
      nodes := nodes + [n];
      forall i | -1 <= i < |nodes|
        ensures At(head, nodes, i).next == At(head, nodes, i + 1)
      {
        if i < |ns| - 1 {
          AtInjective(head, ns, i, |ns| - 1);
          assert At(head, nodes, i) == At(head, ns, i);
          assert old(At(head, ns, i).next) == At(head, ns, i + 1);
        }
      }
      forall i | 0 <= i <= |nodes|
        ensures At(head, nodes, i).prev == At(head, nodes, i - 1)
      {
        if i < |ns| {
          assert old(At(head, ns, i).prev) == At(head, ns, i - 1);
        }
      }
    }

    /** listAppendIfNotEmbedded: appends at the tail exactly when the node was absent. */
    method AppendIfNotEmbedded(n: ListNode) returns (added: bool)
      requires Valid() && n in universe
      modifies this, head, universe
      ensures Valid() && nodes == Enqueue(old(nodes), n) && added == (n !in old(nodes))
      ensures !added ==> forall m :: m in universe + {head} ==> m.prev == old(m.prev) && m.next == old(m.next)
    {
      var embedded := NodeEmbedded(n);
      if !embedded {
        AddTail(n);
        return true;
      }
      return false;
    }

    /** The head of a nonempty list, unlinked. */
    method TakeHead() returns (n: ListNode)
      requires Valid() && nodes != []
      modifies this, head, universe
      ensures Valid() && n == old(nodes)[0] && nodes == old(nodes)[1..]
      ensures n in universe
    {
      assert At(head, nodes, -1).next == At(head, nodes, 0);
      n := head.next;
      Remove(n);
    }
  }
}
