/** The doubly linked list of the server: every operation on the pointers is the same operation
    on a sequence. */
module LinkedList {

  class Node {
    var prev: Node?
    var next: Node?
    const value: int

    constructor (value: int)
      ensures this.value == value && prev == null && next == null
    {
      this.value := value;
      prev, next := null, null;
    }
  }

  /** The node at a place, or null beside the list. */
  ghost function At(nodes: seq<Node>, i: int): Node? {
    if 0 <= i < |nodes| then nodes[i] else null
  }

  ghost function ValuesOf(nodes: seq<Node>): (r: seq<int>)
    ensures |r| == |nodes| && forall i | 0 <= i < |r| :: r[i] == nodes[i].value
  {
    if nodes == [] then [] else [nodes[0].value] + ValuesOf(nodes[1..])
  }

  ghost predicate Distinct(nodes: seq<Node>) {
    forall i, j | 0 <= i < j < |nodes| :: nodes[i] != nodes[j]
  }

  ghost function First(nodes: seq<Node>, other: Node?): Node? {
    if nodes == [] then other else nodes[0]
  }

  ghost function Last(nodes: seq<Node>, other: Node?): Node? {
    if nodes == [] then other else nodes[|nodes| - 1]
  }

  ghost function PrevOf(nodes: seq<Node>, i: nat, before: Node?): Node?
    requires i < |nodes|
  {
    if i == 0 then before else nodes[i - 1]
  }

  ghost function NextOf(nodes: seq<Node>, i: nat, after: Node?): Node?
    requires i < |nodes|
  {
    if i + 1 == |nodes| then after else nodes[i + 1]
  }

  /** A stretch of nodes, linked to each other and to what stands before and after it. */
  ghost predicate Chain(nodes: seq<Node>, before: Node?, after: Node?)
    reads nodes
  {
    forall i | 0 <= i < |nodes| ::
      nodes[i].prev == PrevOf(nodes, i, before) && nodes[i].next == NextOf(nodes, i, after)
  }

  lemma Neighbours(a: seq<Node>, b: seq<Node>, i: nat, before: Node?, after: Node?)
    requires i < |a + b|
    ensures PrevOf(a + b, i, before) == if i < |a| then PrevOf(a, i, before) else PrevOf(b, i - |a|, Last(a, before))
    ensures NextOf(a + b, i, after) == if i < |a| then NextOf(a, i, First(b, after)) else NextOf(b, i - |a|, after)
  {
  }

  /** Two stretches that are linked to each other are one, and the other way round. */
  lemma ChainJoin(a: seq<Node>, b: seq<Node>, before: Node?, after: Node?)
    ensures Chain(a + b, before, after) <==> Chain(a, before, First(b, after)) && Chain(b, Last(a, before), after)
  {
    hide PrevOf, NextOf;
    var c := a + b;
    if Chain(a, before, First(b, after)) && Chain(b, Last(a, before), after) {
      forall i | 0 <= i < |c| ensures c[i].prev == PrevOf(c, i, before) && c[i].next == NextOf(c, i, after) {
        Neighbours(a, b, i, before, after);
        assert c[i] == if i < |a| then a[i] else b[i - |a|];
      }
    }
    if Chain(c, before, after) {
      forall i | 0 <= i < |a| ensures a[i].prev == PrevOf(a, i, before) && a[i].next == NextOf(a, i, First(b, after)) {
        Neighbours(a, b, i, before, after);
        assert c[i] == a[i];
      }
      forall i | 0 <= i < |b| ensures b[i].prev == PrevOf(b, i, Last(a, before)) && b[i].next == NextOf(b, i, after) {
        Neighbours(a, b, |a| + i, before, after);
        assert c[|a| + i] == b[i];
      }
    }
  }

  lemma DistinctJoin(a: seq<Node>, b: seq<Node>)
    requires Distinct(a) && Distinct(b) && forall n | n in a :: n !in b
    ensures Distinct(a + b)
  {
    var c := a + b;
    forall i, j | 0 <= i < j < |c| ensures c[i] != c[j] {
      assert c[i] == if i < |a| then a[i] else b[i - |a|];
      assert c[j] == if j < |a| then a[j] else b[j - |a|];
      assert i < |a| ==> c[i] in a;
      assert j >= |a| ==> c[j] in b;
    }
  }

  lemma DistinctParts(s: seq<Node>, k: nat)
    requires Distinct(s) && k <= |s|
    ensures Distinct(s[..k]) && Distinct(s[k..]) && forall n | n in s[..k] :: n !in s[k..]
  {
    forall n | n in s[..k] ensures n !in s[k..] {
      var i :| 0 <= i < k && s[i] == n;
      forall j | 0 <= j < |s[k..]| ensures s[k..][j] != n {
        assert s[k..][j] == s[k + j];
      }
    }
  }

  /** A node stands nowhere else in the list. */
  lemma NotHere(s: seq<Node>, k: nat, n: Node)
    requires Distinct(s) && k < |s| && n == s[k]
    ensures n !in s[..k] && n !in s[k + 1..]
  {
    DistinctParts(s, k);
    DistinctParts(s, k + 1);
    assert s[..k + 1][k] == n;
    assert s[k..][0] == n;
  }

  lemma LastOnly(a: seq<Node>, i: nat)
    requires Distinct(a) && i < |a|
    ensures a[i] == a[|a| - 1] <==> i == |a| - 1
    ensures a[i] == a[0] <==> i == 0
  {
  }

  /** Writes the next pointer at the end of a stretch. */
  method SetNext(left: Node, right: Node?, ghost a: seq<Node>, ghost before: Node?, ghost was: Node?)
    requires a != [] && Distinct(a) && left == a[|a| - 1] && Chain(a, before, was)
    modifies left`next
    ensures Chain(a, before, right)
  {
    hide Distinct;
    left.next := right;
    forall i | 0 <= i < |a| ensures a[i].prev == PrevOf(a, i, before) && a[i].next == NextOf(a, i, right) {
      LastOnly(a, i);
      assert old(a[i].prev) == PrevOf(a, i, before) && old(a[i].next) == NextOf(a, i, was);
    }
  }

  /** Writes the previous pointer at the start of a stretch. */
  method SetPrev(right: Node, left: Node?, ghost b: seq<Node>, ghost was: Node?, ghost after: Node?)
    requires b != [] && Distinct(b) && right == b[0] && Chain(b, was, after)
    modifies right`prev
    ensures Chain(b, left, after)
  {
    hide Distinct;
    right.prev := left;
    forall i | 0 <= i < |b| ensures b[i].prev == PrevOf(b, i, left) && b[i].next == NextOf(b, i, after) {
      LastOnly(b, i);
      assert old(b[i].prev) == PrevOf(b, i, was) && old(b[i].next) == NextOf(b, i, after);
    }
  }

  /** The last lines of listInsertNode: the neighbours are made to point at the new node. */
  method LinkIn(node: Node, ghost a: seq<Node>, ghost b: seq<Node>, ghost s: seq<Node>)
    requires s == a + b && Distinct(s) && Chain(s, null, null) && node !in s
    requires node.prev == Last(a, null) && node.next == First(b, null)
    modifies s
    ensures Distinct(a + [node] + b) && Chain(a + [node] + b, null, null)
  {
    hide Chain, Distinct;
    DistinctParts(s, |a|);
    assert s[..|a|] == a && s[|a|..] == b;
    ChainJoin(a, b, null, null);
    OneBetween(node);
    One(node);
    if node.prev != null {
      assert a[|a| - 1] in a && a[|a| - 1] in s;
      SetNext(node.prev, node, a, null, First(b, null));
    }
    if node.next != null {
      assert b[0] in b && b[0] in s;
      SetPrev(node.next, node, b, Last(a, null), null);
    }
    DistinctJoin(a, [node]);
    DistinctJoin(a + [node], b);
    ChainJoin(a, [node], null, First(b, null));
    ChainJoin(a + [node], b, null, null);
  }

  class List {
    var head: Node?
    var tail: Node?
    var len: nat
    ghost var nodes: seq<Node>

    ghost predicate Valid()
      reads this, nodes
    {
      && len == |nodes| && Distinct(nodes) && Chain(nodes, null, null)
      && head == First(nodes, null) && tail == Last(nodes, null)
    }

    ghost function Values(): seq<int>
      reads this
    {
      ValuesOf(nodes)
    }

    constructor ()
      ensures Valid() && nodes == []
    {
      head, tail, len, nodes := null, null, 0, [];
    }

    /** listAddNodeHead. */
    method AddNodeHead(value: int)
      requires Valid()
      modifies this, nodes
      ensures Valid() && |nodes| == |old(nodes)| + 1 && fresh(nodes[0]) && nodes[1..] == old(nodes)
      ensures Values() == [value] + old(Values())
    {
      hide Chain;
      ghost var s := nodes;
      var node := new Node(value);
      One(node);
      if len == 0 {
        head, tail := node, node;
      } else {
        SetNext(node, head, [node], null, null);
        SetPrev(head, node, s, null, null);
        head := node;
      }
      len := len + 1;
      nodes := [node] + nodes;
      assert node !in s;
      DistinctJoin([node], s);
      ChainJoin([node], s, null, null);
    }

    /** listAddNodeTail. */
    method AddNodeTail(value: int)
      requires Valid()
      modifies this, nodes
      ensures Valid() && |nodes| == |old(nodes)| + 1 && fresh(nodes[|nodes| - 1]) && nodes[..|nodes| - 1] == old(nodes)
      ensures Values() == old(Values()) + [value]
    {
      hide Chain;
      ghost var s := nodes;
      var node := new Node(value);
      One(node);
      if len == 0 {
        head, tail := node, node;
      } else {
        SetPrev(node, tail, [node], null, null);
        SetNext(tail, node, s, null, null);
        tail := node;
      }
      len := len + 1;
      nodes := nodes + [node];
      assert node !in s;
      DistinctJoin(s, [node]);
      ChainJoin(s, [node], null, null);
    }

    /** listInsertNode, before or after a node of the list. */
    method InsertNode(mark: Node, value: int, after: bool, ghost k: nat)
      requires Valid() && k < |nodes| && nodes[k] == mark
      modifies this, nodes
      ensures Valid()
      ensures var p := if after then k + 1 else k;
              |nodes| == |old(nodes)| + 1 && fresh(nodes[p]) && nodes[p].value == value
              && nodes == old(nodes)[..p] + [nodes[p]] + old(nodes)[p..]
    {
      hide Chain, Distinct;
      ghost var s, p := nodes, if after then k + 1 else k;
      var node := new Node(value);
      Around(s, k, after);
      if after {
        node.prev, node.next := mark, mark.next;
        if tail == mark {
          tail := node;
        }
      } else {
        node.next, node.prev := mark, mark.prev;
        if head == mark {
          head := node;
        }
      }
      assert node !in s;
      LinkIn(node, s[..p], s[p..], s);
      len := len + 1;
      nodes := s[..p] + [node] + s[p..];
    }

    /** listDelNode. */
    method DelNode(node: Node, ghost k: nat)
      requires Valid() && k < |nodes| && nodes[k] == node
      modifies this, nodes
      ensures Valid() && nodes == old(nodes[..k] + nodes[k + 1..])
      ensures node.next == old(node.next) && node.prev == old(node.prev)
    {
      hide Chain, Distinct;
      ghost var s := nodes;
      ghost var a, b := s[..k], s[k + 1..];
      Cut(s, k);
      var left, right := node.prev, node.next;
      if left != null {
        assert a[|a| - 1] in a;
        SetNext(left, right, a, null, node);
      } else {
        head := right;
      }
      if right != null {
        assert b[0] in b;
        SetPrev(right, left, b, node, null);
      } else {
        tail := left;
      }
      len := len - 1;
      NoChain();
      ChainJoin(a, b, null, null);
      DistinctJoin(a, b);
      nodes := a + b;
    }

    /** listRotate: the tail becomes the head. */
    method Rotate()
      requires Valid()
      modifies this, nodes
      ensures Valid()
      ensures var s := old(nodes);
              nodes == if |s| <= 1 then s else [s[|s| - 1]] + s[..|s| - 1]
    {
      hide Chain, Distinct;
      if len <= 1 {
        return;
      }
      ghost var s := nodes;
      ghost var a := s[..|s| - 1];
      var t := tail;
      Cut(s, |s| - 1);
      assert s[|s| - 1 + 1..] == [] && a[|a| - 1] in a && a[0] in a;
      tail := t.prev;
      SetNext(tail, null, a, null, t);
      SetPrev(head, t, a, null, null);
      t.prev := null;
      t.next := head;
      head := t;
      One(t);
      OneBetween(t);
      assert [t][0] == t;
      ChainJoin([t], a, null, null);
      DistinctJoin([t], a);
      nodes := [t] + a;
    }

    /** listJoin: the other list is emptied into this one. */
    method Join(other: List)
      requires Valid() && other.Valid() && other != this
      requires forall n | n in nodes :: n !in other.nodes
      modifies this, other, nodes, other.nodes
      ensures Valid() && other.Valid()
      ensures nodes == old(nodes) + old(other.nodes) && other.nodes == []
    {
      hide Chain, Distinct;
      ghost var a, b := nodes, other.nodes;
      if other.head != null {
        assert b[0] in b;
        SetPrev(other.head, tail, b, null, null);
      }
      if tail != null {
        assert a[|a| - 1] in a;
        SetNext(tail, other.head, a, null, null);
      } else {
        head := other.head;
      }
      if other.tail != null {
        tail := other.tail;
      }
      len := len + other.len;
      NoChain();
      assert Distinct([]) by { DistinctParts(a, 0); assert a[..0] == []; }
      ChainJoin(a, b, null, null);
      DistinctJoin(a, b);
      nodes := a + b;
      other.head, other.tail, other.len, other.nodes := null, null, 0, [];
    }

    /** listSearchKey: the first node with the value. */
    method SearchKey(key: int) returns (node: Node?)
      requires Valid()
      ensures node == null ==> key !in Values()
      ensures node != null ==> exists k | 0 <= k < |nodes| :: nodes[k] == node && Values()[k] == key && key !in Values()[..k]
    {
      var iter := head;
      ghost var k := 0;
      while iter != null
        invariant k <= |nodes| && iter == First(nodes[k..], null)
        invariant forall i | 0 <= i < k :: nodes[i].value != key
        decreases |nodes| - k
      {
        node := iter;
        iter := node.next;
        assert node == nodes[k] && iter == NextOf(nodes, k, null);
        if node.value == key {
          return;
        }
        k := k + 1;
      }
      node := null;
    }

    /** One round: the iterator moves on before its node may be removed. */
    method Visit(node: Node, drop: int -> bool, ghost done: seq<Node>, ghost left: seq<Node>, ghost all: seq<Node>)
      returns (next: Node?)
      requires Valid() && nodes == done + left && left != [] && node == left[0]
      requires forall n | n in nodes :: n in all
      modifies this, all
      ensures forall n | n in nodes :: n in all
      ensures Valid() && next == First(left[1..], null)
      ensures nodes == (if drop(node.value) then done else done + [node]) + left[1..]
    {
      hide Chain, Distinct;
      ghost var k := |done|;
      Cut(nodes, k);
      assert nodes[k] == node && nodes[k + 1..] == left[1..] && nodes[..k] == done;
      next := node.next;
      if drop(node.value) {
        forall i | 0 <= i < |nodes| ensures nodes[i] in all {
          assert nodes[i] in nodes;
        }
        DelNode(node, k);
      }
    }

    /** The loop over an iterator that may remove the node it was just given: it is given every
        node once, in order, and exactly the kept ones remain. */
    method Sweep(drop: int -> bool) returns (visited: seq<int>)
      requires Valid()
      modifies this, nodes
      ensures Valid() && visited == old(Values())
      ensures Values() == Kept(old(Values()), drop)
    {
      hide Chain, Distinct, ValuesOf, Kept, Halfway;
      ghost var s := nodes;
      visited := [];
      var iter := head;
      ghost var done: seq<Node>, left := [], nodes;
      Start(s, drop);
      while iter != null
        invariant Valid() && nodes == done + left && iter == First(left, null)
        invariant forall n | n in nodes :: n in s
        invariant Halfway(s, done, left, visited, drop)
        decreases |left|
      {
        HalfwayStep(s, done, left, visited, drop);
        visited := visited + [iter.value];
        ghost var node := iter;
        iter := Visit(iter, drop, done, left, s);
        done := if drop(node.value) then done else done + [node];
        left := left[1..];
      }
      HalfwayEnds(s, done, visited, drop);
      assert nodes == done;
    }

    method VisitBack(node: Node, drop: int -> bool, ghost done: seq<Node>, ghost left: seq<Node>, ghost all: seq<Node>)
      returns (next: Node?)
      requires Valid() && nodes == left + [node] + done
      requires forall n | n in nodes :: n in all
      modifies this, all
      ensures forall n | n in nodes :: n in all
      ensures Valid() && next == Last(left, null)
      ensures nodes == left + if drop(node.value) then done else [node] + done
    {
      hide Chain, Distinct;
      ghost var k := |left|;
      Cut(nodes, k);
      assert nodes[k] == node && nodes[k + 1..] == done && nodes[..k] == left;
      next := node.prev;
      if drop(node.value) {
        forall i | 0 <= i < |nodes| ensures nodes[i] in all {
          assert nodes[i] in nodes;
        }
        DelNode(node, k);
      }
    }

    /** The same loop over an iterator that starts at the tail. */
    method SweepBack(drop: int -> bool) returns (visited: seq<int>)
      requires Valid()
      modifies this, nodes
      ensures Valid() && Reversed(visited) == old(Values())
      ensures Values() == Kept(old(Values()), drop)
    {
      hide Chain, Distinct, ValuesOf, Kept, Reversed, HalfwayBack;
      ghost var s := nodes;
      visited := [];
      var iter := tail;
      ghost var done: seq<Node>, left := [], nodes;
      StartBack(s, drop);
      while iter != null
        invariant Valid() && nodes == left + done && iter == Last(left, null)
        invariant forall n | n in nodes :: n in s
        invariant HalfwayBack(s, done, left, visited, drop)
        decreases |left|
      {
        ghost var rest := left[..|left| - 1];
        assert left == rest + [iter];
        HalfwayBackStep(s, done, rest, iter, visited, drop);
        visited := visited + [iter.value];
        ghost var node := iter;
        iter := VisitBack(iter, drop, done, rest, s);
        done := if drop(node.value) then done else [node] + done;
        left := rest;
      }
      HalfwayBackEnds(s, done, visited, drop);
      assert nodes == done;
    }
  }

  /** The same from the tail: everything behind `left` was visited, last first. */
  ghost predicate HalfwayBack(s: seq<Node>, done: seq<Node>, left: seq<Node>, visited: seq<int>, drop: int -> bool) {
    && ValuesOf(left) + Reversed(visited) == ValuesOf(s)
    && Kept(ValuesOf(left), drop) + ValuesOf(done) == Kept(ValuesOf(s), drop)
  }

  ghost function Reversed(values: seq<int>): seq<int> {
    if values == [] then [] else Reversed(values[1..]) + [values[0]]
  }

  lemma {:induction false} ReversedMore(values: seq<int>, x: int)
    ensures Reversed(values + [x]) == [x] + Reversed(values)
    decreases |values|
  {
    if values == [] {
      assert ([] + [x])[1..] == [];
    } else {
      assert (values + [x])[1..] == values[1..] + [x];
      ReversedMore(values[1..], x);
    }
  }

  lemma {:induction false} KeptMore(values: seq<int>, x: int, drop: int -> bool)
    ensures Kept(values + [x], drop) == Kept(values, drop) + if drop(x) then [] else [x]
    decreases |values|
  {
    hide Kept;
    var more, own := values + [x], if drop(x) then [] else [x];
    KeptStep(more, drop);
    KeptNone(drop);
    if values == [] {
      assert more[1..] == [] && [] + own == own && own + [] == own;
    } else {
      assert more[1..] == values[1..] + [x];
      KeptMore(values[1..], x, drop);
      KeptStep(values, drop);
      var head := if drop(values[0]) then [] else [values[0]];
      assert head + (Kept(values[1..], drop) + own) == head + Kept(values[1..], drop) + own;
    }
  }

  lemma KeptNone(drop: int -> bool)
    ensures Kept([], drop) == []
  {
  }

  lemma StartBack(s: seq<Node>, drop: int -> bool)
    ensures HalfwayBack(s, [], s, [], drop) && s + [] == s
  {
  }

  lemma HalfwayBackStep(s: seq<Node>, done: seq<Node>, left: seq<Node>, n: Node, visited: seq<int>, drop: int -> bool)
    requires HalfwayBack(s, done, left + [n], visited, drop)
    ensures HalfwayBack(s, if drop(n.value) then done else [n] + done, left, visited + [n.value], drop)
  {
    hide ValuesOf, Kept, Reversed;
    ValuesMore(left, n);
    ReversedMore(visited, n.value);
    KeptMore(ValuesOf(left), n.value, drop);
    ValuesTail([n] + done);
    assert ([n] + done)[1..] == done;
    assert ValuesOf(left) + ([n.value] + Reversed(visited)) == ValuesOf(left) + [n.value] + Reversed(visited);
    assert Kept(ValuesOf(left), drop) + ([n.value] + ValuesOf(done)) == Kept(ValuesOf(left), drop) + [n.value] + ValuesOf(done);
  }

  lemma HalfwayBackEnds(s: seq<Node>, done: seq<Node>, visited: seq<int>, drop: int -> bool)
    requires HalfwayBack(s, done, [], visited, drop)
    ensures Reversed(visited) == ValuesOf(s) && ValuesOf(done) == Kept(ValuesOf(s), drop) && [] + done == done
  {
    assert ValuesOf([]) == [] && Kept([], drop) == [];
  }

  /** The rounds so far: everything before `left` was visited, and `done` kept of it. */
  ghost predicate Halfway(s: seq<Node>, done: seq<Node>, left: seq<Node>, visited: seq<int>, drop: int -> bool) {
    && visited + ValuesOf(left) == ValuesOf(s)
    && ValuesOf(done) + Kept(ValuesOf(left), drop) == Kept(ValuesOf(s), drop)
  }

  lemma HalfwayStep(s: seq<Node>, done: seq<Node>, left: seq<Node>, visited: seq<int>, drop: int -> bool)
    requires left != [] && Halfway(s, done, left, visited, drop)
    ensures Halfway(s, if drop(left[0].value) then done else done + [left[0]], left[1..], visited + [left[0].value], drop)
  {
    hide ValuesOf, Kept;
    TakeOne(done, left, drop);
  }

  lemma HalfwayEnds(s: seq<Node>, done: seq<Node>, visited: seq<int>, drop: int -> bool)
    requires Halfway(s, done, [], visited, drop)
    ensures visited == ValuesOf(s) && ValuesOf(done) == Kept(ValuesOf(s), drop) && done + [] == done
  {
    assert ValuesOf([]) == [] && Kept([], drop) == [];
  }

  ghost function Kept(values: seq<int>, drop: int -> bool): seq<int> {
    if values == [] then [] else (if drop(values[0]) then [] else [values[0]]) + Kept(values[1..], drop)
  }

  lemma Start(s: seq<Node>, drop: int -> bool)
    ensures Halfway(s, [], s, [], drop) && [] + s == s
  {
  }

  lemma KeptStep(values: seq<int>, drop: int -> bool)
    requires values != []
    ensures Kept(values, drop) == (if drop(values[0]) then [] else [values[0]]) + Kept(values[1..], drop)
  {
  }

  lemma TakeOne(done: seq<Node>, left: seq<Node>, drop: int -> bool)
    requires left != []
    ensures ValuesOf(left) == [left[0].value] + ValuesOf(left[1..])
    ensures Kept(ValuesOf(left), drop) == (if drop(left[0].value) then [] else [left[0].value]) + Kept(ValuesOf(left[1..]), drop)
    ensures ValuesOf(done + [left[0]]) == ValuesOf(done) + [left[0].value]
    ensures done + left == (done + [left[0]]) + left[1..]
  {
    hide Kept, ValuesOf;
    KeptStep(ValuesOf(left), drop);
    ValuesTail(left);
    ValuesMore(done, left[0]);
  }

  lemma ValuesTail(s: seq<Node>)
    requires s != []
    ensures ValuesOf(s) == [s[0].value] + ValuesOf(s[1..]) && ValuesOf(s)[1..] == ValuesOf(s[1..])
  {
  }

  lemma ValuesMore(s: seq<Node>, n: Node)
    ensures ValuesOf(s + [n]) == ValuesOf(s) + [n.value]
  {
    hide ValuesOf;
  }

  lemma NoChain()
    ensures forall x, y :: Chain([], x, y)
  {
  }

  lemma OneBetween(n: Node)
    ensures Chain([n], n.prev, n.next)
  {
  }

  /** What stands on the two sides of an insertion point. */
  lemma Around(s: seq<Node>, k: nat, after: bool)
    requires Chain(s, null, null) && Distinct(s) && k < |s|
    ensures var p := if after then k + 1 else k;
            && Last(s[..p], null) == (if after then s[k] else s[k].prev)
            && First(s[p..], null) == (if after then s[k].next else s[k])
            && (Last(s, null) == s[k] <==> k == |s| - 1) && (First(s, null) == s[k] <==> k == 0)
  {
    LastOnly(s, k);
  }

  /** A list with one node taken out of it. */
  lemma Cut(s: seq<Node>, k: nat)
    requires Chain(s, null, null) && Distinct(s) && k < |s|
    ensures var a, b := s[..k], s[k + 1..];
            && Chain(a, null, s[k]) && Chain(b, s[k], null)
            && s[k].prev == Last(a, null) && s[k].next == First(b, null)
            && Distinct(a) && Distinct(b) && s[k] !in a && s[k] !in b && (forall n | n in a :: n !in b)
  {
    hide Distinct;
    var a, b := s[..k], s[k + 1..];
    assert s == a + s[k..] && s[k..] == [s[k]] + b;
    ChainJoin(a, s[k..], null, null);
    ChainJoin([s[k]], b, Last(a, null), null);
    DistinctParts(s, k);
    NotHere(s, k, s[k]);
    DistinctParts(s[k..], 1);
    assert s[k..][1..] == b;
    assert forall n | n in b :: n in s[k..];
    assert [s[k]][0].next == First(b, null) && [s[k]][0].prev == Last(a, null);
  }

  lemma One(n: Node)
    ensures Distinct([n])
    ensures n.prev == null && n.next == null ==> Chain([n], null, null)
    ensures forall x, y :: Chain([], x, y)
  {
  }
}
