/**
 The doubly linked list of adlist.c on the heap, as a refinement of a sequence
 of nodes.
 */
module AdList {

  class Node<T> {
    var prev: Node?<T>
    var next: Node?<T>
    const value: T

    constructor (value: T)
      ensures this.value == value && prev == null && next == null
    {
      this.value, prev, next := value, null, null;
    }
  }

  /** The position of an element of a sequence. */
  function IndexOf<T(==)>(s: seq<T>, x: T): (i: nat)
    requires x in s
    ensures i < |s| && s[i] == x
  {
    if s[0] == x then 0 else 1 + IndexOf(s[1..], x)
  }

  function RotatedHead<T>(s: seq<T>): seq<T> {
    if |s| <= 1 then s else s[1..] + [s[0]]
  }

  function RotatedTail<T>(s: seq<T>): seq<T> {
    if |s| <= 1 then s else [s[|s| - 1]] + s[..|s| - 1]
  }

  /** The two rotations undo each other. */
  lemma RotationsInverse<T>(s: seq<T>)
    ensures RotatedTail(RotatedHead(s)) == s && RotatedHead(RotatedTail(s)) == s
  {
    if |s| > 1 {
      assert [s[0]] + s[1..] == s;
      assert s[..|s| - 1] + [s[|s| - 1]] == s;
    }
  }

  /** As many rotations as there are elements bring everything back. */
  function Rotations<T>(s: seq<T>, n: nat): seq<T> {
    if n == 0 then s else RotatedHead(Rotations(s, n - 1))
  }

  lemma {:induction false} RotationsAre<T>(s: seq<T>, n: nat)
    requires n <= |s|
    ensures Rotations(s, n) == s[n..] + s[..n]
  {
    if n > 0 {
      RotationsAre(s, n - 1);
      if |s| == 1 {
        assert s[1..] + s[..1] == s;
      } else {
        assert s[n - 1..] + s[..n - 1] == [s[n - 1]] + (s[n..] + s[..n - 1]);
        assert (s[n..] + s[..n - 1]) + [s[n - 1]] == s[n..] + s[..n];
      }
    } else {
      assert s[0..] + s[..0] == s;
    }
  }

  lemma FullCircle<T>(s: seq<T>)
    ensures Rotations(s, |s|) == s
  {
    RotationsAre(s, |s|);
  }

  function ValuesOf<T>(nodes: seq<Node<T>>): (v: seq<T>)
    ensures |v| == |nodes| && forall i | 0 <= i < |nodes| :: v[i] == nodes[i].value
  {
    seq(|nodes|, i requires 0 <= i < |nodes| => nodes[i].value)
  }

  lemma ValuesAppended<T>(a: seq<Node<T>>, b: seq<Node<T>>)
    ensures ValuesOf(a + b) == ValuesOf(a) + ValuesOf(b)
  {
  }

  lemma ValuesRotatedHead<T>(nodes: seq<Node<T>>)
    ensures ValuesOf(RotatedHead(nodes)) == RotatedHead(ValuesOf(nodes))
  {
    if |nodes| > 1 {
      hide ValuesOf;
      ValuesAppended(nodes[1..], [nodes[0]]);
      assert ValuesOf(nodes[1..]) == ValuesOf(nodes)[1..];
      assert ValuesOf([nodes[0]]) == [ValuesOf(nodes)[0]];
    }
  }

  lemma ValuesRotatedTail<T>(nodes: seq<Node<T>>)
    ensures ValuesOf(RotatedTail(nodes)) == RotatedTail(ValuesOf(nodes))
  {
    if |nodes| > 1 {
      hide ValuesOf;
      var last := |nodes| - 1;
      ValuesAppended([nodes[last]], nodes[..last]);
      assert ValuesOf(nodes[..last]) == ValuesOf(nodes)[..last];
      assert ValuesOf([nodes[last]]) == [ValuesOf(nodes)[last]];
    }
  }

  /** A sequence with one more element before the one at `i`. */
  function Inserted<T>(s: seq<T>, i: nat, x: T): seq<T>
    requires i <= |s|
  {
    s[..i] + [x] + s[i..]
  }

  lemma ValuesInserted<T>(nodes: seq<Node<T>>, i: nat, node: Node<T>)
    requires i <= |nodes|
    ensures ValuesOf(Inserted(nodes, i, node)) == Inserted(ValuesOf(nodes), i, node.value)
  {
  }

  lemma ValuesRemoved<T>(nodes: seq<Node<T>>, i: nat)
    requires i < |nodes|
    ensures ValuesOf(nodes[..i] + nodes[i + 1..]) == ValuesOf(nodes)[..i] + ValuesOf(nodes)[i + 1..]
  {
  }

  lemma EndsInserted<T>(nodes: seq<Node<T>>, i: nat, node: Node<T>)
    requires i <= |nodes|
    ensures var s := Inserted(nodes, i, node);
            && |s| == |nodes| + 1 && s[i] == node && s[0] == (if i == 0 then node else nodes[0])
            && s[|s| - 1] == if i == |nodes| then node else nodes[|nodes| - 1]
  {
  }

  /** Distinct elements stand at one place. */
  lemma {:induction false} IndexIs<T>(s: seq<T>, k: nat)
    requires k < |s| && forall i, j | 0 <= i < j < |s| :: s[i] != s[j]
    ensures IndexOf(s, s[k]) == k
  {
    if k > 0 {
      IndexIs(s[1..], k - 1);
    }
  }

  class List<T(==)> {
    var head: Node?<T>
    var tail: Node?<T>
    var len: nat
    ghost var nodes: seq<Node<T>>

    /** listCreate */
    constructor ()
      ensures Valid() && nodes == []
    {
      head, tail, len := null, null, 0;
      nodes := [];
    }

    /** The nodes are distinct and each points to its neighbours. */
    ghost predicate Linked()
      reads this`nodes, nodes
    {
      && (forall i, j | 0 <= i < j < |nodes| :: nodes[i] != nodes[j])
      && (forall i {:trigger nodes[i].prev} | 0 <= i < |nodes| ::
         nodes[i].prev == if i == 0 then null else nodes[i - 1])
      && (forall i {:trigger nodes[i].next} | 0 <= i < |nodes| ::
         nodes[i].next == if i == |nodes| - 1 then null else nodes[i + 1])
    }

    ghost predicate Chained()
      reads this`head, this`tail, this`nodes, nodes
    {
      && head == (if nodes == [] then null else nodes[0])
      && tail == (if nodes == [] then null else nodes[|nodes| - 1])
      && Linked()
    }

    ghost predicate Valid()
      reads this, nodes
    {
      len == |nodes| && Chained()
    }

    ghost function Values(): seq<T>
      reads this`nodes
    {
      ValuesOf(nodes)
    }

    /** listAddNodeHead */
    method AddNodeHead(value: T)
      requires Valid()
      modifies this, nodes
      ensures Valid() && Values() == [value] + old(Values())
      ensures |nodes| == old(|nodes|) + 1 && nodes[1..] == old(nodes) && fresh(nodes[0])
    {
      var node := new Node(value);
      if len == 0 {
        head, tail := node, node;
      } else {
        node.next := head;
        head.prev := node;
        head := node;
      }
      len := len + 1;
      nodes := [node] + nodes;
    }

    /** listAddNodeTail */
    method AddNodeTail(value: T)
      requires Valid()
      modifies this, nodes
      ensures Valid() && Values() == old(Values()) + [value]
      ensures |nodes| == old(|nodes|) + 1 && nodes[..old(|nodes|)] == old(nodes) && fresh(nodes[|nodes| - 1])
    {
      var node := new Node(value);
      if len == 0 {
        head, tail := node, node;
      } else {
        node.prev := tail;
        tail.next := node;
        tail := node;
      }
      len := len + 1;
      nodes := nodes + [node];
    }

    /** The end of listInsertNode: a node that points to its neighbours becomes
        the neighbour of both. */
    method LinkIn(node: Node<T>, ghost i: nat)
      requires Linked() && len == |nodes| && i <= |nodes| && node !in nodes
      requires node.prev == (if i == 0 then null else nodes[i - 1])
               && node.next == (if i == |nodes| then null else nodes[i])
      modifies this`len, this`nodes, nodes
      ensures Linked() && len == |nodes|
      ensures nodes == Inserted(old(nodes), i, node)
    {
      hide ValuesOf;
      ghost var before := nodes;
      if node.prev != null {
        node.prev.next := node;
      }
      if node.next != null {
        node.next.prev := node;
      }
      len := len + 1;
      nodes := nodes[..i] + [node] + nodes[i..];
      assert forall j | 0 <= j < i :: nodes[j] == before[j];
      assert nodes[i] == node;
      assert forall j | i < j < |nodes| :: nodes[j] == before[j - 1];
    }

    /** What a node points to. */
    lemma Neighbours(k: nat)
      requires Linked() && k < |nodes|
      ensures nodes[k].prev == if k == 0 then null else nodes[k - 1]
      ensures nodes[k].next == if k == |nodes| - 1 then null else nodes[k + 1]
    {
    }

    /** listInsertNode */
    method InsertNode(oldNode: Node<T>, value: T, after: bool)
      requires Valid() && oldNode in nodes
      modifies this, nodes
      ensures var i := IndexOf(old(nodes), oldNode) + if after then 1 else 0;
              && Valid() && Values() == Inserted(old(Values()), i, value)
              && i < |nodes| && nodes == Inserted(old(nodes), i, nodes[i]) && fresh(nodes[i])
    {
      hide Linked, Chained, ValuesOf, IndexOf, Inserted;
      ghost var before := nodes;
      ghost var k := IndexOf(nodes, oldNode);
      ghost var i := k + if after then 1 else 0;
      Place(k);
      var node := new Node(value);
      if after {
        node.prev := oldNode;
        node.next := oldNode.next;
        if tail == oldNode {
          tail := node;
        }
      } else {
        node.next := oldNode;
        node.prev := oldNode.prev;
        if head == oldNode {
          head := node;
        }
      }
      LinkIn(node, i);
      LinkedIn(before, node, i);
    }

    /** The ends and the values once a node has been linked in. */
    lemma LinkedIn(before: seq<Node<T>>, node: Node<T>, i: nat)
      requires len == |nodes| && Linked() && i <= |before| && nodes == Inserted(before, i, node)
      requires head == if i == 0 then node else before[0]
      requires tail == if i == |before| then node else before[|before| - 1]
      ensures Valid() && Values() == Inserted(ValuesOf(before), i, node.value) && i < |nodes| && nodes[i] == node
    {
      hide ValuesOf, Inserted;
      ValuesInserted(before, i, node);
      EndsInserted(before, i, node);
    }

    /** Where a node stands; it is the head, or the tail, exactly if it stands
        there. */
    lemma Place(k: nat)
      requires Valid() && k < |nodes|
      ensures Linked() && head == nodes[0] && tail == nodes[|nodes| - 1]
      ensures (head == nodes[k] <==> k == 0) && (tail == nodes[k] <==> k == |nodes| - 1)
      ensures nodes[k].prev == if k == 0 then null else nodes[k - 1]
      ensures nodes[k].next == if k == |nodes| - 1 then null else nodes[k + 1]
    {
    }

    /** The unlinking of listDelNode. */
    method Unlink(node: Node<T>, ghost i: nat)
      requires Valid() && i < |nodes| && nodes[i] == node
      modifies this, nodes
      ensures nodes == old(nodes)[..i] + old(nodes)[i + 1..] && len == |nodes|
      ensures head == (if nodes == [] then null else nodes[0])
              && tail == (if nodes == [] then null else nodes[|nodes| - 1])
      ensures Linked()
    {
      hide ValuesOf;
      ghost var before := nodes;
      assert node.prev == if i == 0 then null else before[i - 1];
      assert node.next == if i == |before| - 1 then null else before[i + 1];
      if node.prev != null {
        node.prev.next := node.next;
      } else {
        head := node.next;
      }
      if node.next != null {
        node.next.prev := node.prev;
      } else {
        tail := node.prev;
      }
      len := len - 1;
      nodes := nodes[..i] + nodes[i + 1..];
      assert forall j | 0 <= j < i :: nodes[j] == before[j];
      assert forall j | i <= j < |nodes| :: nodes[j] == before[j + 1];
    }

    /** listDelNode */
    method DelNode(node: Node<T>)
      requires Valid() && node in nodes
      modifies this, nodes
      ensures var i := IndexOf(old(nodes), node);
              && Valid() && nodes == old(nodes)[..i] + old(nodes)[i + 1..]
              && Values() == old(Values())[..i] + old(Values())[i + 1..]
    {
      hide Linked, ValuesOf, IndexOf;
      ValuesRemoved(nodes, IndexOf(nodes, node));
      Unlink(node, IndexOf(nodes, node));
    }

    method DetachTail() returns (last: Node<T>)
      requires Chained() && |nodes| > 1
      modifies this`tail, this`nodes, nodes
      ensures Chained() && old(nodes) == nodes + [last] && last !in nodes
    {
      ghost var before := nodes;
      Neighbours(|nodes| - 1);
      last := tail;
      tail := last.prev;
      tail.next := null;
      nodes := nodes[..|nodes| - 1];
      assert forall j | 0 <= j < |nodes| :: nodes[j] == before[j];
    }

    method AttachHead(node: Node<T>)
      requires Chained() && nodes != [] && node !in nodes
      modifies this`head, this`nodes, nodes, node
      ensures Chained() && nodes == [node] + old(nodes)
    {
      ghost var before := nodes;
      head.prev := node;
      node.prev := null;
      node.next := head;
      head := node;
      nodes := [node] + nodes;
      assert nodes[0] == node && forall j | 0 < j < |nodes| :: nodes[j] == before[j - 1];
    }

    method DetachHead() returns (first: Node<T>)
      requires Chained() && |nodes| > 1
      modifies this`head, this`nodes, nodes
      ensures Chained() && old(nodes) == [first] + nodes && first !in nodes
    {
      hide ValuesOf, IndexOf;
      ghost var before := nodes;
      Neighbours(0);
      first := head;
      head := first.next;
      head.prev := null;
      nodes := nodes[1..];
      assert forall j | 0 <= j < |nodes| :: nodes[j] == before[j + 1];
    }

    method AttachTail(node: Node<T>)
      requires Chained() && nodes != [] && node !in nodes
      modifies this`tail, this`nodes, nodes, node
      ensures Chained() && nodes == old(nodes) + [node]
    {
      ghost var before := nodes;
      tail.next := node;
      node.next := null;
      node.prev := tail;
      tail := node;
      nodes := nodes + [node];
      assert nodes[|nodes| - 1] == node && forall j | 0 <= j < |nodes| - 1 :: nodes[j] == before[j];
    }

    /** listRotateTailToHead */
    method RotateTailToHead()
      requires Valid()
      modifies this, nodes
      ensures Valid() && nodes == RotatedTail(old(nodes)) && Values() == RotatedTail(old(Values()))
    {
      hide Linked, ValuesOf;
      ValuesRotatedTail(nodes);
      if len <= 1 {
        return;
      }
      var last := DetachTail();
      AttachHead(last);
    }

    /** listRotateHeadToTail */
    method RotateHeadToTail()
      requires Valid()
      modifies this, nodes
      ensures Valid() && nodes == RotatedHead(old(nodes)) && Values() == RotatedHead(old(Values()))
    {
      hide Linked, ValuesOf;
      ValuesRotatedHead(nodes);
      if len <= 1 {
        return;
      }
      var first := DetachHead();
      AttachTail(first);
    }

    /** listJoin */
    method Join(o: List<T>)
      requires Valid() && o.Valid() && this != o && forall i, j | 0 <= i < |nodes| && 0 <= j < |o.nodes| ::
               nodes[i] != o.nodes[j]
      modifies this, nodes, o, o.nodes
      ensures Valid() && nodes == old(nodes) + old(o.nodes) && Values() == old(Values()) + old(o.Values())
      ensures o.Valid() && o.nodes == []
    {
      hide ValuesOf;
      ghost var before, other := nodes, o.nodes;
      ValuesAppended(before, other);
      assert before + [] == before;
      if o.len == 0 {
        return;
      }
      o.head.prev := tail;
      if tail != null {
        tail.next := o.head;
      } else {
        head := o.head;
      }
      tail := o.tail;
      len := len + o.len;
      nodes := nodes + o.nodes;
      o.head, o.tail, o.len, o.nodes := null, null, 0, [];
    }

    /** listIndex: negative indexes count from the tail. */
    method Index(index: int) returns (n: Node?<T>)
      requires Valid()
      ensures n == if 0 <= index < |nodes| then nodes[index]
                   else if 0 - |nodes| <= index < 0 then nodes[|nodes| + index] else null
    {
      if index < 0 {
        var left := 0 - index - 1;
        n := tail;
        while left > 0 && n != null
          invariant 0 <= left <= 0 - index - 1
          invariant var k := |nodes| - 1 - (0 - index - 1 - left);
                    n == if 0 <= k < |nodes| then nodes[k] else null
          decreases left
        {
          n := n.prev;
          left := left - 1;
        }
      } else {
        var left := index;
        n := head;
        while left > 0 && n != null
          invariant 0 <= left <= index
          invariant n == if index - left < |nodes| then nodes[index - left] else null
          decreases left
        {
          n := n.next;
          left := left - 1;
        }
      }
    }

    /** listSearchKey without a match function. */
    method SearchKey(key: T) returns (n: Node?<T>)
      requires Valid()
      ensures n == null ==> forall i | 0 <= i < |nodes| :: nodes[i].value != key
      ensures n != null ==> n in nodes && n.value == key
                            && forall i | 0 <= i < IndexOf(nodes, n) :: nodes[i].value != key
    {
      n := head;
      ghost var k := 0;
      while n != null
        invariant 0 <= k <= |nodes| && n == if k < |nodes| then nodes[k] else null
        invariant forall i | 0 <= i < k :: nodes[i].value != key
        decreases |nodes| - k
      {
        if n.value == key {
          IndexIs(nodes, k);
          return;
        }
        n := n.next;
        k := k + 1;
      }
    }
  }

  /** listDup without a dup function. */
  method Dup<T(==)>(orig: List<T>) returns (copy: List<T>)
    requires orig.Valid()
    ensures fresh(copy) && copy.Valid() && copy.Values() == orig.Values()
    ensures forall i | 0 <= i < |copy.nodes| :: fresh(copy.nodes[i])
  {
    copy := new List<T>();
    var node := orig.head;
    ghost var k := 0;
    while node != null
      invariant 0 <= k <= |orig.nodes| && node == if k < |orig.nodes| then orig.nodes[k] else null
      invariant fresh(copy) && copy.Valid() && orig.Valid()
      invariant forall i | 0 <= i < |copy.nodes| :: fresh(copy.nodes[i])
      invariant copy.Values() == orig.Values()[..k]
      decreases |orig.nodes| - k
    {
      copy.AddNodeTail(node.value);
      node := node.next;
      k := k + 1;
    }
  }

  /** The elements that satisfy a test, in order. */
  function Kept<T>(s: seq<T>, drop: T -> bool): seq<T> {
    if s == [] then [] else Kept(s[..|s| - 1], drop) + if drop(s[|s| - 1]) then [] else [s[|s| - 1]]
  }

  lemma {:induction false} KeptNext<T>(s: seq<T>, drop: T -> bool, k: nat)
    requires k < |s|
    ensures Kept(s[..k + 1], drop) == Kept(s[..k], drop) + if drop(s[k]) then [] else [s[k]]
  {
    assert s[..k + 1][..k] == s[..k];
  }

  /** One more node has been visited, and kept or not. */
  lemma VisitedNext<T>(all: seq<Node<T>>, kept: seq<Node<T>>, k: nat, drop: T -> bool)
    requires k < |all| && ValuesOf(kept) == Kept(ValuesOf(all)[..k], drop)
    ensures ValuesOf(all)[..k + 1] == ValuesOf(all)[..k] + [all[k].value]
    ensures ValuesOf(if drop(all[k].value) then kept else kept + [all[k]]) == Kept(ValuesOf(all)[..k + 1], drop)
  {
    KeptNext(ValuesOf(all), drop, k);
    hide Kept;
    if drop(all[k].value) {
      assert Kept(ValuesOf(all)[..k], drop) + [] == Kept(ValuesOf(all)[..k], drop);
    } else {
      assert ValuesOf(kept + [all[k]]) == ValuesOf(kept) + [all[k].value];
    }
  }

  lemma Split<T>(kept: seq<T>, all: seq<T>, k: nat)
    requires k < |all|
    ensures var s := kept + all[k..];
            && s[|kept|] == all[k] && s[..|kept|] + s[|kept| + 1..] == kept + all[k + 1..]
            && s == kept + [all[k]] + all[k + 1..]
            && (k + 1 < |all| ==> s[|kept| + 1] == all[k + 1])
  {
  }

  /** A listNext loop that may delete the nodes it is handed: `kept` are those it
      has passed and left in the list, and `next` is the iterator. */
  ghost predicate Iterating<T>(l: List<T>, kept: seq<Node<T>>, all: seq<Node<T>>, k: nat, next: Node?<T>)
    reads l, l.nodes
  {
    && k <= |all| && l.Valid() && l.nodes == kept + all[k..]
    && (forall i | 0 <= i < |kept| :: kept[i] in all)
    && next == if k < |all| then all[k] else null
  }

  lemma IteratingInside<T>(l: List<T>, kept: seq<Node<T>>, all: seq<Node<T>>, k: nat, next: Node?<T>)
    requires Iterating(l, kept, all, k, next)
    ensures forall n | n in l.nodes :: n in set m | m in all
  {
    ghost var F := set m | m in all;
    forall i | 0 <= i < |l.nodes| ensures l.nodes[i] in F {
      if i < |kept| {
        assert l.nodes[i] == kept[i];
      } else {
        assert l.nodes[i] == all[k..][i - |kept|];
      }
    }
  }

  /** listNext, and listDelNode on the node it returned. */
  method NextAndDelete<T(==)>(l: List<T>, current: Node<T>, delete: bool, ghost kept: seq<Node<T>>,
      ghost all: seq<Node<T>>, ghost k: nat)
    returns (next: Node?<T>)
    requires Iterating(l, kept, all, k, current)
    modifies l, set n | n in all
    ensures k < |all| && current == all[k]
    ensures Iterating(l, if delete then kept else kept + [current], all, k + 1, next)
  {
    hide IndexOf, ValuesOf;
    Split(kept, all, k);
    IndexIs(l.nodes, |kept|);
    l.Neighbours(|kept|);
    IteratingInside(l, kept, all, k, current);
    next := current.next;
    if delete {
      l.DelNode(current);
    }
  }

  /** A whole loop, as in the cleanup of failure reports: it visits every node
      the list had, once and in order, and exactly the others remain. */
  method DeleteWhileIterating<T(==)>(l: List<T>, drop: T -> bool) returns (visited: seq<T>)
    requires l.Valid()
    modifies l, set n | n in l.nodes
    ensures l.Valid() && visited == old(l.Values()) && l.Values() == Kept(old(l.Values()), drop)
  {
    hide ValuesOf, Kept, Iterating;
    visited := [];
    ghost var all := l.nodes;
    var next := l.head;
    ghost var k: nat := 0;
    ghost var kept: seq<Node<T>> := [];
    NothingKept(all, drop);
    assert Iterating(l, kept, all, k, next) by { StartIterating(l); }
    while next != null
      invariant k <= |all| && Iterating(l, kept, all, k, next) && (next == null ==> k == |all|)
      invariant visited == ValuesOf(all)[..k] && ValuesOf(kept) == Kept(ValuesOf(all)[..k], drop)
      decreases |all| - k
    {
      var current := next;
      var delete := drop(current.value);
      next := NextAndDelete(l, current, delete, kept, all, k);
      VisitedNext(all, kept, k, drop);
      visited := visited + [current.value];
      kept := if delete then kept else kept + [current];
      k := k + 1;
      IteratingEnd(l, kept, all, k, next);
    }
    IteratingEnd(l, kept, all, k, next);
    assert ValuesOf(all)[..k] == ValuesOf(all);
  }

  lemma StartIterating<T>(l: List<T>)
    requires l.Valid()
    ensures Iterating(l, [], l.nodes, 0, l.head)
  {
    assert [] + l.nodes[0..] == l.nodes;
  }

  lemma IteratingEnd<T>(l: List<T>, kept: seq<Node<T>>, all: seq<Node<T>>, k: nat, next: Node?<T>)
    requires Iterating(l, kept, all, k, next)
    ensures k <= |all| && l.Valid() && (next == null ==> k == |all| && l.nodes == kept)
  {
    if next == null {
      assert kept + all[k..] == kept;
    }
  }

  lemma NothingKept<T>(all: seq<Node<T>>, drop: T -> bool)
    ensures [] + all[0..] == all
    ensures ValuesOf<T>([]) == [] && Kept(ValuesOf(all)[..0], drop) == []
    ensures |ValuesOf(all)| == |all| && forall i | 0 <= i < |all| :: ValuesOf(all)[i] == all[i].value
  {
  }
}
