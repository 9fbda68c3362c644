/** The doubly linked lists of src/utils/linked_list.c, whose nodes belong to their owners. */
module LinkedList {
  class Node<T> {
    var prev: Node?<T>
    var next: Node?<T>
    var ptr: T

    constructor (ptr: T)
      ensures this.ptr == ptr && prev == null && next == null
    {
      this.ptr, prev, next := ptr, null, null;
    }
  }

  /** The node at place i, or null outside the list. */
  function At<T>(s: seq<Node<T>>, i: int): Node?<T> {
    if 0 <= i < |s| then s[i] else null
  }

  ghost predicate Distinct<T>(s: seq<Node<T>>) {
    forall i, j :: 0 <= i < j < |s| ==> s[i] != s[j]
  }

  /** The links of node i lead to its neighbours. */
  ghost predicate LinkedAt<T>(s: seq<Node<T>>, i: int)
    requires 0 <= i < |s|
    reads s
  {
    s[i].prev == At(s, i - 1) && s[i].next == At(s, i + 1)
  }

  class List<T> {
    var head: Node?<T>
    var tail: Node?<T>
    var size: nat
    ghost var nodes: seq<Node<T>>

    ghost predicate Valid()
      reads this, nodes
    {
      && size == |nodes| && Distinct(nodes)
      && head == At(nodes, 0) && tail == At(nodes, |nodes| - 1)
      && forall i :: 0 <= i < |nodes| ==> LinkedAt(nodes, i)
    }

    /** linked_list_init. */
    constructor ()
      ensures Valid() && nodes == []
    {
      head, tail, size, nodes := null, null, 0, [];
    }

    /** linked_list_append. */
    method Append(n: Node<T>)
      requires Valid() && n !in nodes
      modifies this, nodes, n
      ensures Valid() && nodes == old(nodes) + [n]
    {
      n.next := null;
      if size == 0 {
        n.prev := null;
        head := n;
        tail := n;
      } else {
        tail.next := n;
        n.prev := tail;
        tail := n;
      }
      size := size + 1;
      ghost var was := nodes;
      nodes := nodes + [n];
      forall i | 0 <= i < |nodes| ensures LinkedAt(nodes, i) {
        assert i < |was| ==> old(LinkedAt(was, i)) && nodes[i] == was[i];
      }
    }

    /** linked_list_insert behind `after`, or at the head when it is null. */
    method Insert(after: Node?<T>, n: Node<T>, ghost k: nat)
      requires Valid() && n !in nodes && k <= |nodes| && after == At(nodes, k - 1)
      modifies this, nodes, n
      ensures Valid() && nodes == old(nodes)[..k] + [n] + old(nodes)[k..]
    {
      ghost var was := nodes;
      n.prev := after;
      var next: Node?<T>;
      if after != null {
        assert old(LinkedAt(was, k - 1));
        next := after.next;
        after.next := n;
      } else {
        next := head;
        head := n;
      }
      n.next := next;
      assert next == At(was, k);
      if next != null {
        next.prev := n;
      } else {
        tail := n;
      }
      size := size + 1;
      nodes := was[..k] + [n] + was[k..];
      assert forall i :: 0 <= i < |nodes| ==> nodes[i] == if i < k then was[i] else if i == k then n else was[i - 1];
      forall i | 0 <= i < |nodes| ensures LinkedAt(nodes, i) {
        assert i < k ==> old(LinkedAt(was, i));
        assert i > k ==> old(LinkedAt(was, i - 1));
      }
    }

    /** linked_list_insert_to_head. */
    method InsertToHead(n: Node<T>)
      requires Valid() && n !in nodes
      modifies this, nodes, n
      ensures Valid() && nodes == [n] + old(nodes)
    {
      Insert(null, n, 0);
    }

    /** linked_list_remove of a node of the list. */
    method Remove(n: Node<T>, ghost k: nat)
      requires Valid() && k < |nodes| && nodes[k] == n
      modifies this, nodes
      ensures Valid() && nodes == old(nodes)[..k] + old(nodes)[k + 1..]
      ensures n.prev == null && n.next == null
    {
      ghost var was := nodes;
      assert LinkedAt(was, k) && (k > 0 ==> LinkedAt(was, k - 1)) && (k + 1 < |was| ==> LinkedAt(was, k + 1));
      var prev, next := n.prev, n.next;
      assert prev == At(was, k - 1) && next == At(was, k + 1) && prev != n && next != n;
      if prev != null {
        prev.next := next;
      } else {
        head := next;
      }
      if next != null {
        next.prev := prev;
      } else {
        tail := prev;
      }
      n.next := null;
      n.prev := null;
      size := size - 1;
      nodes := was[..k] + was[k + 1..];
      assert forall i :: 0 <= i < |nodes| ==> nodes[i] == was[if i < k then i else i + 1];
      forall i | 0 <= i < |nodes| ensures LinkedAt(nodes, i) {
        assert i < k ==> old(LinkedAt(was, i));
        assert i >= k ==> old(LinkedAt(was, i + 1));
      }
    }

    /** linked_list_move: this list takes over all of src, which becomes empty. */
    method MoveFrom(src: List<T>)
      requires src != this && src.Valid()
      modifies this, src
      ensures Valid() && nodes == old(src.nodes) && src.Valid() && src.nodes == []
    {
      head := src.head;
      tail := src.tail;
      size := src.size;
      nodes := src.nodes;
      src.head, src.tail, src.size, src.nodes := null, null, 0, [];
    }
  }
}
