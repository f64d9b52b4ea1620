/** The doubly linked list of src/adlist.c: prev, next, head, tail and len rewritten in place, refining a
    sequence of nodes. Callers hold on to nodes, so the node objects are part of what is specified. */
module AdList {

  class Node<T> {
    var prev: Node?<T>
    var next: Node?<T>
    const value: T

    constructor (v: T)
      ensures value == v && prev == null && next == null
    {
      prev, next, value := null, null, v;
    }
  }

  ghost predicate NoDup<T>(s: seq<Node<T>>) {
    forall i, j :: 0 <= i < j < |s| ==> s[i] != s[j]
  }

  /** The element at an index, or null outside. */
  ghost function Nth<T>(s: seq<Node<T>>, i: int): Node?<T> {
    if 0 <= i < |s| then s[i] else null
  }

  ghost predicate LinkAt<T>(s: seq<Node<T>>, i: int)
    requires 0 <= i < |s|
    reads s[i]
  {
    s[i].prev == Nth(s, i - 1) && s[i].next == Nth(s, i + 1)
  }

  lemma OnlyAt<T>(s: seq<Node<T>>, i: int)
    requires NoDup(s) && 0 <= i < |s|
    ensures forall j :: 0 <= j < |s| ==> (s[j] == s[i] <==> j == i)
  {
  }

  lemma NoDupParts<T>(a: seq<Node<T>>, b: seq<Node<T>>)
    requires NoDup(a + b)
    ensures NoDup(a) && NoDup(b) && forall n :: n in a ==> n !in b
  {
    forall i, j | 0 <= i < |a| && 0 <= j < |b|
      ensures a[i] != b[j]
    {
      assert (a + b)[i] != (a + b)[|a| + j];
    }
    forall i, j | 0 <= i < j < |a|
      ensures a[i] != a[j]
    {
      assert (a + b)[i] != (a + b)[j];
    }
    forall i, j | 0 <= i < j < |b|
      ensures b[i] != b[j]
    {
      assert (a + b)[|a| + i] != (a + b)[|a| + j];
    }
  }

  lemma NoDupConcat<T>(a: seq<Node<T>>, b: seq<Node<T>>)
    requires NoDup(a) && NoDup(b) && forall n :: n in a ==> n !in b
    ensures NoDup(a + b)
  {
    forall i, j | 0 <= i < j < |a + b|
      ensures (a + b)[i] != (a + b)[j]
    {
      if i < |a| <= j {
        assert a[i] in a && b[j - |a|] in b;
      }
    }
  }

  lemma NoDupRotate<T>(a: seq<Node<T>>, b: seq<Node<T>>)
    requires NoDup(a + b)
    ensures NoDup(b + a)
  {
    NoDupParts(a, b);
    NoDupConcat(b, a);
  }

  lemma NoDupInsert<T>(s: seq<Node<T>>, k: nat, n: Node<T>)
    requires NoDup(s) && n !in s && k <= |s|
    ensures NoDup(s[..k] + [n] + s[k..])
  {
    assert s == s[..k] + s[k..];
    NoDupParts(s[..k], s[k..]);
    NoDupConcat(s[..k], [n]);
    NoDupConcat(s[..k] + [n], s[k..]);
  }

  lemma NoDupRemove<T>(s: seq<Node<T>>, i: nat)
    requires NoDup(s) && i < |s|
    ensures NoDup(s[..i] + s[i + 1..])
  {
    assert s == s[..i] + s[i..] && s[i..] == [s[i]] + s[i + 1..];
    NoDupParts(s[..i], s[i..]);
    NoDupParts([s[i]], s[i + 1..]);
    NoDupConcat(s[..i], s[i + 1..]);
  }

  class List<T(==)> {
    var head: Node?<T>
    var tail: Node?<T>
    var len: nat
    ghost var nodes: seq<Node<T>>

    constructor ()
      ensures Valid() && nodes == []
    {
      head, tail, len, nodes := null, null, 0, [];
    }

    ghost predicate Ends() reads this {
      len == |nodes| && head == Nth(nodes, 0) && tail == Nth(nodes, |nodes| - 1)
    }

    ghost predicate Linked() reads this, nodes {
      forall i :: 0 <= i < |nodes| ==> LinkAt(nodes, i)
    }

    ghost predicate Valid() reads this, nodes {
      NoDup(nodes) && Ends() && Linked()
    }

    /** listAddNodeHead */
    method AddNodeHead(v: T) returns (node: Node<T>)
      requires Valid()
      modifies this, nodes
      ensures Valid() && fresh(node) && node.value == v && nodes == [node] + old(nodes)
    {
      hide NoDup;
      node := new Node(v);
      ghost var s := nodes;
      assert NoDup([node] + s) by { OneNode(node); NoDupConcat([node], s); }
      if len == 0 {
        head, tail := node, node;
      } else {
        OnlyAt(s, 0);
        node.next := head;
        head.prev := node;
        head := node;
      }
      len := len + 1;
      nodes := [node] + s;
      forall j | 0 <= j < |nodes|
        ensures LinkAt(nodes, j)
      {
        if j > 0 {
          assert old(LinkAt(nodes, j - 1));
        }
      }
    }

    /** listAddNodeTail */
    method AddNodeTail(v: T) returns (node: Node<T>)
      requires Valid()
      modifies this, nodes
      ensures Valid() && fresh(node) && node.value == v && nodes == old(nodes) + [node]
    {
      hide NoDup;
      node := new Node(v);
      ghost var s := nodes;
      assert NoDup(s + [node]) by { OneNode(node); NoDupConcat(s, [node]); }
      if len == 0 {
        head, tail := node, node;
      } else {
        OnlyAt(s, |s| - 1);
        node.prev := tail;
        tail.next := node;
        tail := node;
      }
      len := len + 1;
      nodes := s + [node];
      forall j | 0 <= j < |nodes|
        ensures LinkAt(nodes, j)
      {
        if j < |s| {
          assert old(LinkAt(nodes, j));
        }
      }
    }

    /** listInsertNode */
    method InsertNode(oldNode: Node<T>, v: T, after: bool, ghost i: nat) returns (node: Node<T>)
      requires Valid() && i < |nodes| && nodes[i] == oldNode
      modifies this, nodes
      ensures Valid() && fresh(node) && node.value == v
      ensures var k := if after then i + 1 else i; nodes == old(nodes)[..k] + [node] + old(nodes)[k..]
    {
      hide NoDup;
      node := new Node(v);
      ghost var k := if after then i + 1 else i;
      ghost var s := nodes;
      NoDupInsert(s, k, node);
      assert LinkAt(s, i);
      OnlyAt(s, i);
      if 0 < k { OnlyAt(s, k - 1); }
      if k < |s| { OnlyAt(s, k); }
      if after {
        node.prev := oldNode;
        node.next := oldNode.next;
        if tail == oldNode {
          tail := node;
        }
      } else {
        node.next := oldNode;
        node.prev := oldNode.prev;
        if head == oldNode {
          head := node;
        }
      }
      assert node.prev == Nth(s, k - 1) && node.next == Nth(s, k);
      if node.prev != null {
        node.prev.next := node;
      }
      if node.next != null {
        node.next.prev := node;
      }
      len := len + 1;
      nodes := s[..k] + [node] + s[k..];
      forall j | 0 <= j < |nodes|
        ensures LinkAt(nodes, j)
      {
        if j < k {
          assert old(LinkAt(nodes, j));
        } else if j > k {
          assert old(LinkAt(nodes, j - 1));
        }
      }
    }

    /** listDelNode: the very node handed in is the one that goes, wherever it stands. */
    method DelNode(node: Node<T>, ghost i: nat)
      requires Valid() && i < |nodes| && nodes[i] == node
      modifies this, {node.prev, node.next}
      ensures Valid() && nodes == old(nodes)[..i] + old(nodes)[i + 1..]
      ensures node.next == old(node.next) && node.prev == old(node.prev)
    {
      hide NoDup;
      ghost var s := nodes;
      NoDupRemove(s, i);
      assert LinkAt(s, i);
      OnlyAt(s, i);
      if 0 < i { OnlyAt(s, i - 1); }
      if i + 1 < |s| { OnlyAt(s, i + 1); }
      if node.prev != null {
        node.prev.next := node.next;
      } else {
        head := node.next;
      }
      if node.next != null {
        node.next.prev := node.prev;
      } else {
        tail := node.prev;
      }
      len := len - 1;
      nodes := s[..i] + s[i + 1..];
      forall j | 0 <= j < |nodes|
        ensures LinkAt(nodes, j)
      {
        if j < i {
          assert old(LinkAt(nodes, j));
        } else {
          assert old(LinkAt(nodes, j + 1));
        }
      }
    }

    /** listRotateTailToHead */
    method RotateTailToHead()
      requires Valid()
      modifies this, nodes
      ensures Valid()
      ensures nodes ==
              if |old(nodes)| <= 1 then old(nodes) else [old(nodes)[|old(nodes)| - 1]] + old(nodes)[..|old(nodes)| - 1]
    {
      if len <= 1 {
        return;
      }
      hide NoDup;
      ghost var s := nodes;
      ghost var m := |s| - 1;
      assert s == s[..m] + [s[m]];
      NoDupRotate(s[..m], [s[m]]);
      OnlyAt(s, 0);
      OnlyAt(s, m);
      OnlyAt(s, m - 1);
      assert LinkAt(s, m);
      var last := tail;
      tail := last.prev;
      tail.next := null;
      head.prev := last;
      last.prev := null;
      last.next := head;
      head := last;
      nodes := [last] + s[..m];
      forall j | 0 <= j < |nodes|
        ensures LinkAt(nodes, j)
      {
        if j > 0 {
          assert old(LinkAt(nodes, j - 1));
        }
      }
    }

    /** listRotateHeadToTail */
    method RotateHeadToTail()
      requires Valid()
      modifies this, nodes
      ensures Valid()
      ensures nodes == if |old(nodes)| <= 1 then old(nodes) else old(nodes)[1..] + [old(nodes)[0]]
    {
      if len <= 1 {
        return;
      }
      hide NoDup;
      ghost var s := nodes;
      assert s == [s[0]] + s[1..];
      NoDupRotate([s[0]], s[1..]);
      OnlyAt(s, 0);
      OnlyAt(s, 1);
      OnlyAt(s, |s| - 1);
      assert LinkAt(s, 0);
      var first := head;
      head := first.next;
      head.prev := null;
      tail.next := first;
      first.next := null;
      first.prev := tail;
      tail := first;
      nodes := s[1..] + [first];
      forall j | 0 <= j < |nodes|
        ensures LinkAt(nodes, j)
      {
        if j < |s| - 1 {
          assert old(LinkAt(nodes, j + 1));
        }
      }
    }

    /** listJoin: the other list is left empty. */
    method Join(o: List<T>)
      requires Valid() && o.Valid() && o != this && forall n :: n in nodes ==> n !in o.nodes
      modifies this, o, nodes, o.nodes
      ensures Valid() && o.Valid() && nodes == old(nodes) + old(o.nodes) && o.nodes == []
    {
      hide NoDup;
      ghost var a, b := nodes, o.nodes;
      NoDupConcat(a, b);
      if a != [] { OnlyAt(a, |a| - 1); }
      if b != [] { OnlyAt(b, 0); }
      if o.head != null {
        o.head.prev := tail;
      }
      if tail != null {
        tail.next := o.head;
      } else {
        head := o.head;
      }
      if o.tail != null {
        tail := o.tail;
      }
      len := len + o.len;
      nodes := a + b;
      o.head, o.tail, o.len, o.nodes := null, null, 0, [];
      Nothing<T>();
      forall j | 0 <= j < |nodes|
        ensures LinkAt(nodes, j)
      {
        if j < |a| {
          assert old(LinkAt(nodes, j));
          assert a[j] !in b;
        } else {
          assert old(LinkAt(o.nodes, j - |a|));
          assert b[j - |a|] in b;
        }
      }
    }

    /** listIndex: from the head for an index that is not negative, from the tail otherwise. */
    method Index(index: int) returns (n: Node?<T>)
      requires Valid()
      ensures n == Nth(nodes, if index >= 0 then index else |nodes| + index)
    {
      if index < 0 {
        var k := -index - 1;
        n := tail;
        ghost var at := |nodes| - 1;
        while k != 0 && n != null
          invariant k >= 0 && at < |nodes| && n == Nth(nodes, at) && at - k == |nodes| + index
          decreases k
        {
          assert LinkAt(nodes, at);
          n, at, k := n.prev, at - 1, k - 1;
        }
      } else {
        var k := index;
        n := head;
        ghost var at := 0;
        while k != 0 && n != null
          invariant k >= 0 && at >= 0 && n == Nth(nodes, at) && at + k == index
          decreases k
        {
          assert LinkAt(nodes, at);
          n, at, k := n.next, at + 1, k - 1;
        }
      }
    }

    /** listSearchKey without a match method: the first node holding the value. */
    method SearchKey(v: T) returns (n: Node?<T>)
      requires Valid()
      ensures n == null <==> forall m :: m in nodes ==> m.value != v
      ensures n != null ==>
                exists i ::
                  0 <= i < |nodes| && nodes[i] == n && n.value == v && forall j :: 0 <= j < i ==> nodes[j].value != v
    {
      n := head;
      ghost var i := 0;
      while n != null
        invariant 0 <= i <= |nodes| && n == Nth(nodes, i) && forall j :: 0 <= j < i ==> nodes[j].value != v
        decreases |nodes| - i
      {
        if n.value == v {
          return;
        }
        assert LinkAt(nodes, i);
        n, i := n.next, i + 1;
      }
    }

    /** The loop every user of listNext writes to drop a value: the cursor has moved on before the node goes. */
    method DelValue(v: T)
      requires Valid()
      modifies this, nodes
      ensures Valid() && nodes == Without(old(nodes), v)
    {
      var next := head;
      ghost var i := 0;
      ghost var s := nodes;
      while next != null
        invariant Valid() && 0 <= i <= |nodes| && next == Nth(nodes, i)
        invariant s == old(nodes) && forall n :: n in nodes ==> n in old(nodes)
        invariant nodes[..i] + Without(nodes[i..], v) == Without(s, v)
        decreases |nodes| - i
      {
        var current := next;
        assert LinkAt(nodes, i);
        next := current.next;
        WithoutStep(nodes, i, v);
        if current.value == v {
          assert current.prev != null ==> nodes[i - 1] == current.prev && current.prev in old(nodes);
          assert current.next != null ==> nodes[i + 1] == current.next && current.next in old(nodes);
          DelNode(current, i);
        } else {
          i := i + 1;
        }
      }
      assert nodes[..i] == nodes && nodes[i..] == [];
    }
  }

  lemma Nothing<T>()
    ensures NoDup<T>([])
  {
  }

  lemma OneNode<T>(n: Node<T>)
    ensures NoDup([n])
  {
  }

  ghost function Without<T>(s: seq<Node<T>>, v: T): seq<Node<T>> {
    if s == [] then [] else (if s[0].value == v then [] else [s[0]]) + Without(s[1..], v)
  }

  lemma WithoutStep<T>(s: seq<Node<T>>, i: nat, v: T)
    requires i < |s|
    ensures s[i].value == v ==>
              var t := s[..i] + s[i + 1..]; t[..i] + Without(t[i..], v) == s[..i] + Without(s[i..], v)
    ensures s[i].value != v ==> s[..i + 1] + Without(s[i + 1..], v) == s[..i] + Without(s[i..], v)
  {
    assert s[i..][1..] == s[i + 1..] && s[i..][0] == s[i];
    var t := s[..i] + s[i + 1..];
    assert t[..i] == s[..i] && t[i..] == s[i + 1..];
    assert s[..i + 1] == s[..i] + [s[i]];
  }
}
