/** The doubly linked list of framework/common/bt_list.c.

    `Node` is a link with its payload; a list is a circular chain through a sentinel.  The ghost
    field `ring` lists the chain from the sentinel back to the sentinel, and `contents` the
    payloads; every method states its new contents as a function of the old. */
module BtList {
  import opened Seqs

  /** Payload pointers. */
  type Ptr = nat

  // ----- Contents -----

  /** The index of the first `x`, or the length. */
  function IndexOf(s: seq<Ptr>, x: Ptr): (k: nat)
    ensures k <= |s|
    ensures k < |s| ==> s[k] == x
    ensures forall i :: 0 <= i < k ==> s[i] != x
  {
    if s == [] || s[0] == x then 0
    else
      var k := IndexOf(s[1..], x);
      assert forall i :: 0 < i < k + 1 ==> s[i] == s[1..][i - 1];
      k + 1
  }

  /** The first `x` is at `k`. */
  ghost predicate FirstAt(s: seq<Ptr>, k: int, x: Ptr) {
    0 <= k < |s| && s[k] == x && forall i :: 0 <= i < k ==> s[i] != x
  }

  lemma {:induction false} FirstIs(s: seq<Ptr>, x: Ptr)
    ensures forall k :: FirstAt(s, k, x) ==> RemoveFirst(s, x) == s[..k] + s[k + 1..] && x in s
  {
    forall k | FirstAt(s, k, x) ensures RemoveFirst(s, x) == s[..k] + s[k + 1..] && x in s {
      assert IndexOf(s, x) == k;
    }
  }

  /** `s` without its first `x`. */
  function RemoveFirst(s: seq<Ptr>, x: Ptr): seq<Ptr> {
    var k := IndexOf(s, x);
    if k == |s| then s else Without(s, k)
  }

  function Put(s: seq<Ptr>, x: Ptr, atHead: bool): seq<Ptr> {
    if atHead then [x] + s else s + [x]
  }

  /** The contents after a foreach over `todo` whose callback removes its argument from the list
      at the visits marked in `removes`. */
  function AfterForeach(s: seq<Ptr>, todo: seq<Ptr>, removes: seq<bool>): seq<Ptr>
    requires |removes| == |todo|
    decreases |todo|
  {
    if todo == [] then s
    else AfterForeach(if removes[0] then RemoveFirst(s, todo[0]) else s, todo[1..], removes[1..])
  }

  lemma {:induction false} WithoutMultiset(s: seq<Ptr>, k: nat)
    requires k < |s|
    ensures multiset(Without(s, k)) == multiset(s) - multiset{s[k]}
  {
    assert s == s[..k] + [s[k]] + s[k + 1..];
  }

  /** Removing the first match takes out one occurrence and keeps the order of the rest. */
  lemma {:induction false} RemoveFirstMultiset(s: seq<Ptr>, x: Ptr)
    ensures multiset(RemoveFirst(s, x)) == multiset(s) - multiset{x}
  {
    if IndexOf(s, x) < |s| {
      WithoutMultiset(s, IndexOf(s, x));
    } else {
      assert x !in s;
    }
  }

  /** The payloads whose visit was marked, in order. */
  function Marked(todo: seq<Ptr>, removes: seq<bool>): seq<Ptr>
    requires |todo| <= |removes|
    decreases |todo|
  {
    if todo == [] then [] else (if removes[0] then [todo[0]] else []) + Marked(todo[1..], removes[1..])
  }

  lemma {:induction false} Associate(a: seq<Ptr>, b: seq<Ptr>, c: seq<Ptr>)
    ensures a + (b + c) == a + b + c
  {
  }

  lemma {:induction false} MarkedAppend(todo: seq<Ptr>, x: Ptr, removes: seq<bool>)
    requires |todo| < |removes|
    ensures Marked(todo + [x], removes) == Marked(todo, removes) + (if removes[|todo|] then [x] else [])
    decreases |todo|
  {
    if todo == [] {
      assert [x][1..] == [];
    } else {
      var h, t := if removes[0] then [todo[0]] else [], Marked(todo[1..], removes[1..]);
      var last := if removes[|todo|] then [x] else [];
      MarkedAppend(todo[1..], x, removes[1..]);
      assert (todo + [x])[1..] == todo[1..] + [x] && (todo + [x])[0] == todo[0];
      assert Marked(todo[1..] + [x], removes[1..]) == t + last;
      assert Marked(todo + [x], removes) == h + (t + last);
      Associate(h, t, last);
    }
  }

  /** A foreach takes out exactly the payloads whose visit was marked, however they repeat. */
  lemma {:induction false} ForeachRemovesSelected(s: seq<Ptr>, todo: seq<Ptr>, removes: seq<bool>)
    requires |removes| == |todo| && multiset(todo) <= multiset(s)
    ensures multiset(s) == multiset(AfterForeach(s, todo, removes)) + multiset(Marked(todo, removes))
    decreases |todo|
  {
    if todo == [] {
    } else {
      var r := if removes[0] then RemoveFirst(s, todo[0]) else s;
      StillThere(s, todo);
      ForeachRemovesSelected(r, todo[1..], removes[1..]);
    }
  }

  lemma {:induction false} StillThere(s: seq<Ptr>, todo: seq<Ptr>)
    requires todo != [] && multiset(todo) <= multiset(s)
    ensures multiset(s) == multiset(RemoveFirst(s, todo[0])) + multiset{todo[0]}
    ensures multiset(todo[1..]) <= multiset(RemoveFirst(s, todo[0])) && multiset(todo[1..]) <= multiset(s)
  {
    assert todo == [todo[0]] + todo[1..];
    RemoveFirstMultiset(s, todo[0]);
  }

  /** The payloads whose visit was not marked, in order. */
  function Unmarked(todo: seq<Ptr>, removes: seq<bool>): seq<Ptr>
    requires |todo| <= |removes|
    decreases |todo|
  {
    if todo == [] then [] else (if removes[0] then [] else [todo[0]]) + Unmarked(todo[1..], removes[1..])
  }

  /** With distinct payloads a foreach leaves exactly the unmarked ones, in their order. */
  lemma {:induction false} ForeachKeepsOrder(s: seq<Ptr>, removes: seq<bool>)
    requires |removes| == |s| && Distinct(s)
    ensures AfterForeach(s, s, removes) == Unmarked(s, removes)
  {
    KeepsOrderFrom([], s, removes);
    assert [] + s == s && [] + Unmarked(s, removes) == Unmarked(s, removes);
  }

  lemma {:induction false} KeepsOrderFrom(kept: seq<Ptr>, todo: seq<Ptr>, removes: seq<bool>)
    requires |removes| == |todo| && Distinct(kept + todo)
    ensures AfterForeach(kept + todo, todo, removes) == kept + Unmarked(todo, removes)
    decreases |todo|
  {
    if todo == [] {
      assert kept + todo == kept;
    } else {
      var x, rest := todo[0], todo[1..];
      assert kept + todo == (kept + [x]) + rest;
      if removes[0] {
        RemoveInMiddle(kept, x, rest);
        KeepsOrderFrom(kept, rest, removes[1..]);
        assert [] + Unmarked(rest, removes[1..]) == Unmarked(rest, removes[1..]);
      } else {
        KeepsOrderFrom(kept + [x], rest, removes[1..]);
        Associate(kept, [x], Unmarked(rest, removes[1..]));
      }
    }
  }

  lemma {:induction false} RemoveInMiddle(a: seq<Ptr>, x: Ptr, b: seq<Ptr>)
    requires Distinct((a + [x]) + b)
    ensures RemoveFirst((a + [x]) + b, x) == a + b && Distinct(a + b)
  {
    var s := (a + [x]) + b;
    assert s[|a|] == x;
    assert IndexOf(s, x) == |a|;
    assert s[..|a|] == a && s[|a| + 1..] == b;
    forall i, j | 0 <= i < j < |a + b| ensures (a + b)[i] != (a + b)[j] {
      assert (a + b)[i] == s[Skip(i, |a|)] && (a + b)[j] == s[Skip(j, |a|)];
    }
  }

  // ----- Histories of two lists -----

  /** Operations on two lists with a free callback; `second` picks the list. */
  datatype Op =
    | AddTo(second: bool, x: Ptr, atHead: bool)
    | RemoveFrom(second: bool, x: Ptr)
    | ClearAll(second: bool)
    | MoveFrom(second: bool, within: bool, x: Ptr, atHead: bool)
    | RemoveAt(second: bool, k: nat)                   // bt_list_remove_node
    | ForEach(second: bool, removes: seq<bool>)        // bt_list_foreach, removing at the marked visits

  datatype Lists = Lists(a: seq<Ptr>, b: seq<Ptr>, added: multiset<Ptr>, freed: multiset<Ptr>)

  function Flip(p: Lists): Lists { p.(a := p.b, b := p.a) }

  /** The operation on the first list; `b` is the other one. */
  function OnFirst(p: Lists, op: Op): Lists {
    match op
    case AddTo(_, x, h) => p.(a := Put(p.a, x, h), added := p.added + multiset{x})
    case RemoveFrom(_, x) =>
      p.(a := RemoveFirst(p.a, x), freed := p.freed + (if x in p.a then multiset{x} else multiset{}))
    case ClearAll(_) => p.(a := [], freed := p.freed + multiset(p.a))
    case MoveFrom(_, within, x, h) =>
      if x !in p.a then p
      else if within then p.(a := Put(RemoveFirst(p.a, x), x, h))
      else p.(a := RemoveFirst(p.a, x), b := Put(p.b, x, h))
    case RemoveAt(_, k) =>
      if k >= |p.a| then p else p.(a := Without(p.a, k), freed := p.freed + multiset{p.a[k]})
    case ForEach(_, removes) =>
      if |removes| != |p.a| then p
      else p.(a := AfterForeach(p.a, p.a, removes), freed := p.freed + multiset(Marked(p.a, removes)))
  }

  function Perform(p: Lists, op: Op): Lists {
    if op.second then Flip(OnFirst(Flip(p), op)) else OnFirst(p, op)
  }

  function PerformAll(p: Lists, ops: seq<Op>): Lists
    decreases |ops|
  {
    if ops == [] then p else PerformAll(Perform(p, ops[0]), ops[1..])
  }

  ghost predicate Balanced(p: Lists) {
    p.added == multiset(p.a) + multiset(p.b) + p.freed
  }

  lemma {:induction false} OnFirstBalanced(p: Lists, op: Op)
    requires Balanced(p)
    ensures Balanced(OnFirst(p, op))
  {
    match op
    case AddTo(_, x, h) => PutMultiset(p.a, x, h);
    case RemoveFrom(_, x) => RemoveFirstMultiset(p.a, x);
    case ClearAll(_) =>
    case MoveFrom(_, within, x, h) => MoveBalanced(p, op);
    case RemoveAt(_, _) => RemoveAtBalanced(p, op);
    case ForEach(_, _) => ForEachBalanced(p, op);
  }

  lemma {:induction false} RemoveAtBalanced(p: Lists, op: Op)
    requires Balanced(p) && op.RemoveAt?
    ensures Balanced(OnFirst(p, op))
  {
    if op.k < |p.a| {
      WithoutMultiset(p.a, op.k);
    }
  }

  lemma {:induction false} ForEachBalanced(p: Lists, op: Op)
    requires Balanced(p) && op.ForEach?
    ensures Balanced(OnFirst(p, op))
  {
    if |op.removes| == |p.a| {
      ForeachRemovesSelected(p.a, p.a, op.removes);
    }
  }

  lemma {:induction false} MoveBalanced(p: Lists, op: Op)
    requires Balanced(p) && op.MoveFrom?
    ensures Balanced(OnFirst(p, op))
  {
    RemoveFirstMultiset(p.a, op.x);
    PutMultiset(if op.within then RemoveFirst(p.a, op.x) else p.b, op.x, op.atHead);
  }

  lemma {:induction false} PutMultiset(s: seq<Ptr>, x: Ptr, atHead: bool)
    ensures multiset(Put(s, x, atHead)) == multiset(s) + multiset{x}
  {
  }

  /** Over every history each payload added is in one of the lists or was freed, exactly as often as
      it was added; moving frees nothing and loses nothing. */
  lemma {:induction false} HistoryBalanced(p: Lists, ops: seq<Op>)
    requires Balanced(p)
    ensures Balanced(PerformAll(p, ops))
    decreases |ops|
  {
    if ops == [] {
    } else {
      if ops[0].second {
        OnFirstBalanced(Flip(p), ops[0]);
      } else {
        OnFirstBalanced(p, ops[0]);
      }
      HistoryBalanced(Perform(p, ops[0]), ops[1..]);
    }
  }

  // ----- Queues and stacks -----

  /** A tail add or a removal of the head node, on the first list. */
  predicate IsQueueOp(op: Op) { !op.second && ((op.AddTo? && !op.atHead) || (op.RemoveAt? && op.k == 0)) }

  /** What the tail adds of a history brought, in order. */
  function Came(ops: seq<Op>): seq<Ptr> {
    if ops == [] then [] else Brought(ops[0]) + Came(ops[1..])
  }

  function Brought(op: Op): seq<Ptr> { if op.AddTo? then [op.x] else [] }

  /** What its head removals took, in order. */
  function Went(p: Lists, ops: seq<Op>): seq<Ptr>
    decreases |ops|
  {
    if ops == [] then []
    else Gone(p, ops[0]) + Went(Perform(p, ops[0]), ops[1..])
  }

  function Gone(p: Lists, op: Op): seq<Ptr> { if op.RemoveAt? && p.a != [] then [p.a[0]] else [] }

  /** First in, first out: over every history of tail adds and head removals, what went and what is still in
      the list is, in order, what was in the list and what came. */
  lemma {:induction false} FirstInFirstOut(p: Lists, ops: seq<Op>)
    requires forall i :: 0 <= i < |ops| ==> IsQueueOp(ops[i])
    ensures Went(p, ops) + PerformAll(p, ops).a == p.a + Came(ops)
    decreases |ops|
  {
    if ops == [] {
    } else {
      var op, q := ops[0], Perform(p, ops[0]);
      assert IsQueueOp(op);
      assert forall i :: 0 <= i < |ops[1..]| ==> ops[1..][i] == ops[i + 1];
      FirstInFirstOut(q, ops[1..]);
      QueueStep(p, op);
      Chained(Gone(p, op), q.a, p.a, Brought(op), Went(q, ops[1..]), PerformAll(q, ops[1..]).a, Came(ops[1..]));
    }
  }

  lemma {:induction false} QueueStep(p: Lists, op: Op)
    requires IsQueueOp(op)
    ensures Gone(p, op) + Perform(p, op).a == p.a + Brought(op)
  {
    if op.RemoveAt? && p.a != [] {
      assert Without(p.a, 0) == p.a[1..];
      assert p.a == [p.a[0]] + p.a[1..];
    }
  }

  lemma {:induction false} Chained(g: seq<Ptr>, q: seq<Ptr>, p: seq<Ptr>, x: seq<Ptr>, w: seq<Ptr>, e: seq<Ptr>,
                                   c: seq<Ptr>)
    requires g + q == p + x && w + e == q + c
    ensures (g + w) + e == p + (x + c)
  {
    Associate(g, w, e);
    Associate(g, q, c);
    Associate(p, x, c);
  }

  /** Last in, first out: removing the head node undoes an add at the head. */
  lemma {:induction false} LastInFirstOut(p: Lists, x: Ptr)
    ensures var q := Perform(p, AddTo(false, x, true));
            && q.a != [] && q.a[0] == x
            && Perform(q, RemoveAt(false, 0)) == p.(added := p.added + multiset{x}, freed := p.freed + multiset{x})
  {
    assert Without([x] + p.a, 0) == p.a;
  }

  // ----- The linked structure -----

  class Node {
    const data: Ptr
    var prev: Node
    var next: Node

    constructor (d: Ptr)
      ensures data == d && next == prev == this
    {
      data := d;
      prev := this;
      next := this;
    }
  }

  ghost predicate Linked(a: Node, b: Node)
    reads a`next, b`prev
  {
    a.next == b && b.prev == a
  }

  ghost predicate Chain(ring: seq<Node>)
    reads ring`next, ring`prev
  {
    forall i, j :: 0 <= i && j == i + 1 < |ring| ==> Linked(ring[i], ring[j])
  }

  ghost predicate Differ(a: Node, b: Node) { a != b }

  ghost predicate DistinctNodes(ring: seq<Node>) {
    forall i, j :: 0 <= i < j < |ring| - 1 ==> Differ(ring[i], ring[j])
  }

  /** The payloads along a ring. */
  ghost predicate Payloads(ring: seq<Node>, contents: seq<Ptr>) {
    |contents| == |ring| - 2 && forall i :: 0 <= i < |contents| ==> contents[i] == ring[i + 1].data
  }

  /** The chain around an inserted node. */
  lemma {:induction false} InsertChain(ring: seq<Node>, node: Node, k: nat)
    requires |ring| >= 2 && k < |ring| - 1
    requires forall i, j :: 0 <= i && j == i + 1 < |ring| && i != k ==> Linked(ring[i], ring[j])
    requires Linked(ring[k], node) && Linked(node, ring[k + 1])
    ensures Chain(ring[..k + 1] + [node] + ring[k + 1..])
  {
    var r := ring[..k + 1] + [node] + ring[k + 1..];
    forall i, j | 0 <= i && j == i + 1 < |r| ensures Linked(r[i], r[j]) {
      if i < k {
        assert Linked(ring[i], ring[j]);
      } else if i > k + 1 {
        assert Linked(ring[i - 1], ring[j - 1]);
      }
    }
  }

  /** The rest of the list invariant around an inserted node. */
  lemma {:induction false} InsertNodes(ring: seq<Node>, node: Node, k: nat, repr: set<Node>, contents: seq<Ptr>)
    requires |ring| >= 2 && k < |ring| - 1 && DistinctNodes(ring) && Payloads(ring, contents)
    requires (forall i :: 0 <= i < |ring| ==> ring[i] in repr) && node !in repr
    ensures var r := ring[..k + 1] + [node] + ring[k + 1..];
            && DistinctNodes(r)
            && (forall i :: 0 <= i < |r| ==> r[i] in repr + {node})
            && Payloads(r, contents[..k] + [node.data] + contents[k..])
  {
    var r := ring[..k + 1] + [node] + ring[k + 1..];
    assert forall i :: 0 <= i <= k ==> r[i] == ring[i];
    assert forall i :: k + 1 < i < |r| ==> r[i] == ring[i - 1];
    forall i, j | 0 <= i < j < |r| - 1 ensures Differ(r[i], r[j]) {
      var i' := if i <= k then i else i - 1;
      var j' := if j <= k then j else j - 1;
      if i != k + 1 && j != k + 1 {
        assert Differ(ring[i'], ring[j']);
      }
    }
  }

  /** The chain around the gap left by position `k`. */
  lemma {:induction false} UnlinkChain(ring: seq<Node>, k: nat)
    requires 0 < k < |ring| - 1
    requires forall i, j :: 0 <= i && j == i + 1 < |ring| && i != k && j != k ==> Linked(ring[i], ring[j])
    requires Linked(ring[k - 1], ring[k + 1])
    ensures Chain(Without(ring, k))
  {
    var r := Without(ring, k);
    forall i, j | 0 <= i && j == i + 1 < |r| ensures Linked(r[i], r[j]) {
      if j < k {
        assert Linked(ring[i], ring[j]);
      } else if i >= k {
        assert Linked(ring[i + 1], ring[j + 1]);
      }
    }
  }

  lemma {:induction false} UnlinkNodes(ring: seq<Node>, k: nat, repr: set<Node>, contents: seq<Ptr>)
    requires 0 < k < |ring| - 1 && DistinctNodes(ring) && Payloads(ring, contents)
    requires (forall i :: 0 <= i < |ring| ==> ring[i] in repr) && ring[0] == ring[|ring| - 1]
    ensures var r := Without(ring, k);
            && DistinctNodes(r)
            && (forall i :: 0 <= i < |r| ==> r[i] in repr - {ring[k]})
            && Payloads(r, Without(contents, k - 1))
  {
    var r := Without(ring, k);
    forall i, j | 0 <= i < j < |r| - 1 ensures Differ(r[i], r[j]) {
      assert Differ(ring[if i < k then i else i + 1], ring[if j < k then j else j + 1]);
    }
    forall i | 0 <= i < |r| ensures r[i] != ring[k] {
      if i < k {
        assert Differ(ring[i], ring[k]);
      } else if i + 1 < |ring| - 1 {
        assert Differ(ring[k], ring[i + 1]);
      } else {
        assert Differ(ring[0], ring[k]);
      }
    }
  }

  /** No other position of the ring holds the node at `k`, except that the sentinel is at both ends. */
  lemma {:induction false} Apart(ring: seq<Node>, k: nat)
    requires |ring| >= 2 && DistinctNodes(ring) && ring[0] == ring[|ring| - 1] && k < |ring|
    ensures forall i :: 0 <= i < |ring| && i != k && !(i == 0 && k == |ring| - 1) && !(k == 0 && i == |ring| - 1) ==>
                          ring[i] != ring[k]
  {
    forall i | 0 <= i < |ring| && i != k && !(i == 0 && k == |ring| - 1) && !(k == 0 && i == |ring| - 1)
      ensures ring[i] != ring[k]
    {
      var a, b := if i == |ring| - 1 then 0 else i, if k == |ring| - 1 then 0 else k;
      assert Differ(ring[if a < b then a else b], ring[if a < b then b else a]);
    }
  }

  class List {
    const head: Node
    const hasFreeCb: bool
    var length: nat
    ghost var ring: seq<Node>
    ghost var repr: set<Node>
    ghost var contents: seq<Ptr>
    ghost var freed: seq<Ptr>   // arguments of free_cb, in order

    ghost predicate Valid()
      reads this, repr
    {
      && (forall i :: 0 <= i < |ring| ==> ring[i] in repr)
      && |ring| >= 2 && ring[0] == head && ring[|ring| - 1] == head
      && DistinctNodes(ring)
      && Chain(ring)
      && Payloads(ring, contents)
      && length == |contents|
    }

    /** `bt_list_new`. */
    constructor (hasFreeCb: bool)
      ensures Valid() && fresh(repr) && contents == [] && freed == [] && this.hasFreeCb == hasFreeCb
    {
      var h := new Node(0);
      head := h;
      this.hasFreeCb := hasFreeCb;
      length := 0;
      ring, repr := [h, h], {h};
      contents, freed := [], [];
    }

    /** Two nodes around the one at `k` of the ring are joined; no other link changes. */
    method Join(node: Node, ghost k: nat)
      requires 0 < k < |ring| - 1 && Chain(ring) && DistinctNodes(ring)
      requires ring[0] == ring[|ring| - 1] && node == ring[k]
      modifies ring`next, ring`prev
      ensures forall i, j :: 0 <= i && j == i + 1 < |ring| && i != k && j != k ==> Linked(ring[i], ring[j])
      ensures Linked(ring[k - 1], ring[k + 1])
    {
      assert Linked(ring[k - 1], ring[k]) && Linked(ring[k], ring[k + 1]);
      Apart(ring, k - 1);
      Apart(ring, k + 1);
      node.prev.next := node.next;
      node.next.prev := node.prev;
      forall i, j | 0 <= i && j == i + 1 < |ring| && i != k && j != k ensures Linked(ring[i], ring[j]) {
        assert old(Linked(ring[i], ring[j]));
      }
    }

    /** `list_delete`: unlinks the node at position `k` of the contents. */
    method Unlink(node: Node, ghost k: nat)
      requires Valid() && k < |contents| && node == ring[k + 1]
      modifies this`ring, this`repr, this`contents, this`length, repr`next, repr`prev
      ensures Valid() && ring == Without(old(ring), k + 1) && contents == Without(old(contents), k)
      ensures repr == old(repr) - {node}
    {
      Join(node, k + 1);
      UnlinkChain(ring, k + 1);
      length := length - 1;
      Forget(node, k);
    }

    /** The ghost fields follow. */
    ghost method Forget(node: Node, k: nat)
      requires 2 <= |ring| && ring[0] == ring[|ring| - 1] == head && DistinctNodes(ring) && Payloads(ring, contents)
      requires forall i :: 0 <= i < |ring| ==> ring[i] in repr
      requires k < |contents| && node == ring[k + 1] && Chain(Without(ring, k + 1)) && length == |contents| - 1
      modifies this`ring, this`repr, this`contents
      ensures Valid() && ring == Without(old(ring), k + 1) && contents == Without(old(contents), k)
      ensures repr == old(repr) - {node}
    {
      UnlinkNodes(ring, k + 1, repr, contents);
      WithoutAt(ring, k + 1);
      ring := Without(ring, k + 1);
      repr := repr - {node};
      contents := Without(contents, k);
    }

    /** A node that is in no list goes between the nodes at `k` and `k + 1`; no other link changes. */
    method Splice(node: Node, pred: Node, ghost k: nat)
      requires |ring| >= 2 && k < |ring| - 1 && Chain(ring) && DistinctNodes(ring) && ring[0] == ring[|ring| - 1]
      requires node !in ring && pred == ring[k]
      modifies ring`next, ring`prev, node`next, node`prev
      ensures forall i, j :: 0 <= i && j == i + 1 < |ring| && i != k ==> Linked(ring[i], ring[j])
      ensures Linked(ring[k], node) && Linked(node, ring[k + 1])
    {
      var succ := pred.next;
      assert Linked(ring[k], ring[k + 1]);
      Apart(ring, k);
      Apart(ring, k + 1);
      node.prev := pred;
      node.next := succ;
      pred.next := node;
      succ.prev := node;
      forall i, j | 0 <= i && j == i + 1 < |ring| && i != k ensures Linked(ring[i], ring[j]) {
        assert old(Linked(ring[i], ring[j]));
      }
    }

    /** Links a node that is in no list between `pred` and its successor; `k` payloads come before. */
    method Insert(node: Node, pred: Node, ghost k: nat)
      requires Valid() && node !in repr && k <= |contents| && pred == ring[k]
      modifies this`ring, this`repr, this`contents, this`length, repr`next, repr`prev, node`next, node`prev
      ensures Valid() && repr == old(repr) + {node}
      ensures contents == old(contents)[..k] + [node.data] + old(contents)[k..]
    {
      InsertNodes(ring, node, k, repr, contents);
      Splice(node, pred, k);
      InsertChain(ring, node, k);
      length := length + 1;
      ring := ring[..k + 1] + [node] + ring[k + 1..];
      repr := repr + {node};
      contents := contents[..k] + [node.data] + contents[k..];
    }

    /** `list_add_head` or `list_add_tail`. */
    method Link(node: Node, atHead: bool)
      requires Valid() && node !in repr
      modifies this`ring, this`repr, this`contents, this`length, repr`next, repr`prev, node`next, node`prev
      ensures Valid() && contents == Put(old(contents), node.data, atHead)
      ensures repr == old(repr) + {node}
    {
      if atHead {
        Insert(node, head, 0);
      } else {
        assert ring[|ring| - 2].next == ring[|ring| - 1];
        Insert(node, head.prev, |contents|);
      }
    }

    /** `bt_list_add_head` and `bt_list_add_tail`. */
    method Add(x: Ptr, atHead: bool)
      requires Valid()
      modifies this`ring, this`repr, this`contents, this`length, repr`next, repr`prev
      ensures Valid() && contents == Put(old(contents), x, atHead)
      ensures atHead ==> contents[0] == x && contents[1..] == old(contents)
      ensures !atHead ==> contents[..|old(contents)|] == old(contents) && contents[|old(contents)|..] == [x]
      ensures fresh(repr - old(repr))
    {
      var node := new Node(x);
      Link(node, atHead);
    }

    /** `free_cb(data)` when there is a free callback. */
    method Release(x: Ptr)
      modifies this`freed
      ensures freed == old(freed) + (if hasFreeCb then [x] else [])
    {
      if hasFreeCb {
        freed := freed + [x];
      }
    }

    /** `bt_list_remove_node`. */
    method RemoveNode(node: Node, ghost k: nat)
      requires Valid() && k < |contents| && node == ring[k + 1]
      modifies this`ring, this`repr, this`contents, this`length, this`freed, repr`next, repr`prev
      ensures Valid() && ring == Without(old(ring), k + 1) && contents == Without(old(contents), k)
      ensures repr <= old(repr)
      ensures freed == old(freed) + (if hasFreeCb then [old(contents)[k]] else [])
    {
      Unlink(node, k);
      Release(node.data);
    }

    /** The search loop of `bt_list_remove` and `bt_list_move`: the first node holding `x`, or the
        sentinel. */
    method Locate(x: Ptr) returns (node: Node)
      requires Valid()
      ensures node == ring[IndexOf(contents, x) + 1]
      ensures node == head <==> x !in contents
    {
      node := head.next;
      ghost var k := 0;
      assert node == ring[1];
      while node != head && node.data != x
        invariant k <= |contents| && node == ring[k + 1]
        invariant forall i :: 0 <= i < k ==> contents[i] != x
        decreases |contents| - k
      {
        node := node.next;
        k := k + 1;
        assert node == ring[k + 1];
      }
      assert node == head ==> k == |contents|;
      assert node != head ==> contents[k] == x;
      assert IndexOf(contents, x) == k;
    }

    /** `bt_list_remove`. */
    method Remove(x: Ptr)
      requires Valid()
      modifies this`ring, this`repr, this`contents, this`length, this`freed, repr`next, repr`prev
      ensures Valid() && contents == RemoveFirst(old(contents), x)
      ensures x !in old(contents) ==> contents == old(contents)
      ensures forall k :: FirstAt(old(contents), k, x) ==> contents == old(contents)[..k] + old(contents)[k + 1..]
      ensures ring == if x in old(contents) then Without(old(ring), IndexOf(old(contents), x) + 1) else old(ring)
      ensures repr <= old(repr)
      ensures freed == old(freed) + (if hasFreeCb && x in old(contents) then [x] else [])
    {
      FirstIs(contents, x);
      var node := Locate(x);
      if node != head {
        RemoveNode(node, IndexOf(contents, x));
      }
    }

    /** The first half of `bt_list_move`: the first node holding `x` leaves the list, unfreed. */
    method Detach(x: Ptr) returns (node: Node, found: bool)
      requires Valid()
      modifies this`ring, this`repr, this`contents, this`length, repr`next, repr`prev
      ensures Valid() && contents == RemoveFirst(old(contents), x) && found == (x in old(contents))
      ensures found ==> node in old(repr) && node.data == x
      ensures repr == if found then old(repr) - {node} else old(repr)
    {
      node := Locate(x);
      found := node != head;
      if found {
        Unlink(node, IndexOf(contents, x));
      }
    }

    /** `bt_list_clear`: every payload is freed, in order. */
    method Clear()
      requires Valid()
      modifies this`ring, this`repr, this`contents, this`length, this`freed, repr`next, repr`prev
      ensures Valid() && contents == []
      ensures freed == old(freed) + (if hasFreeCb then old(contents) else [])
    {
      var node := head.next;
      assert node == ring[1];
      while node != head
        invariant Valid() && node == ring[1] && repr <= old(repr)
        invariant |contents| <= |old(contents)| && contents == old(contents)[|old(contents)| - |contents|..]
        invariant freed == old(freed) + (if hasFreeCb then old(contents)[..|old(contents)| - |contents|] else [])
        decreases |contents|
      {
        assert |ring| > 2;
        var tmp := node.next;
        assert tmp == ring[2];
        RemoveNode(node, 0);
        node := tmp;
      }
    }

    /** `bt_list_find`: the first payload that satisfies the predicate, if there is one. */
    method Find(p: Ptr -> bool) returns (found: bool, x: Ptr)
      requires Valid()
      ensures found <==> exists i :: 0 <= i < |contents| && p(contents[i])
      ensures found ==> p(x)
      ensures found ==>
                exists i :: 0 <= i < |contents| && contents[i] == x && forall j :: 0 <= j < i ==> !p(contents[j])
    {
      var node := head.next;
      ghost var k := 0;
      assert node == ring[1];
      while node != head && !p(node.data)
        invariant k <= |contents| && node == ring[k + 1]
        invariant forall i :: 0 <= i < k ==> !p(contents[i])
        decreases |contents| - k
      {
        node := node.next;
        k := k + 1;
        assert node == ring[k + 1];
      }
      assert node == head ==> k == |contents|;
      assert node != head ==> contents[k] == node.data;
      found, x := node != head, node.data;
    }

    /** One callback of a foreach with `left` elements still to visit: it may remove its argument
        and does not disturb what follows. */
    method Callback(x: Ptr, remove: bool, ghost left: nat)
      requires Valid() && 0 < left <= |contents| && contents[|contents| - left] == x
      modifies this`ring, this`repr, this`contents, this`length, this`freed, repr`next, repr`prev
      ensures Valid() && repr <= old(repr)
      ensures contents == if remove then RemoveFirst(old(contents), x) else old(contents)
      ensures left - 1 <= |contents|
      ensures ring[|ring| - left] == old(ring)[|old(ring)| - left]
      ensures freed == old(freed) + (if hasFreeCb && remove then [x] else [])
    {
      if remove {
        SuffixKept(contents, x, |contents| - left);
        Remove(x);
      }
    }

    /** The node with `left` elements still to visit: its payload and its successor. */
    method Peek(node: Node, ghost left: nat) returns (x: Ptr, next: Node)
      requires Valid() && left <= |contents| && node == ring[|ring| - 1 - left] && node != head
      ensures left > 0 && x == contents[|contents| - left] && next == ring[|ring| - left]
    {
      assert left > 0;
      x, next := node.data, node.next;
    }

    /** One turn of the loop of `bt_list_foreach`. */
    method Visit(node: Node, removes: seq<bool>, visited: seq<Ptr>, ghost all: seq<Ptr>, ghost left: nat,
                 ghost before: seq<Ptr>)
      returns (next: Node, seen: seq<Ptr>)
      requires Valid() && Midway(contents, all, removes, left, visited)
      requires Freed(freed, before, visited, removes, hasFreeCb)
      requires node == ring[|ring| - 1 - left] && node != head
      modifies this`ring, this`repr, this`contents, this`length, this`freed, repr`next, repr`prev
      ensures Valid() && repr <= old(repr) && left > 0
      ensures Midway(contents, all, removes, left - 1, seen) && next == ring[|ring| - left]
      ensures Freed(freed, before, seen, removes, hasFreeCb)
    {
      var x;
      x, next := Peek(node, left);
      ForeachAdvances(contents, all, removes, left, visited);
      Callback(x, removes[|visited|], left);
      FreedAdvances(old(freed), before, visited, removes, hasFreeCb, x);
      seen := visited + [x];
    }

    /** `bt_list_foreach`, whose callback removes its argument at the visits marked in `removes`.
        Every element present at the start is visited once, in order. */
    method Foreach(removes: seq<bool>) returns (visited: seq<Ptr>)
      requires Valid() && |removes| == |contents|
      modifies this`ring, this`repr, this`contents, this`length, this`freed, repr`next, repr`prev
      ensures Valid() && visited == old(contents)
      ensures contents == AfterForeach(old(contents), old(contents), removes)
      ensures freed == old(freed) + (if hasFreeCb then Marked(old(contents), removes) else [])
    {
      ghost var all, left := contents, |contents|;
      visited := [];
      var node := head.next;
      assert Linked(ring[0], ring[1]);
      ForeachBegins(all, removes);
      while node != head
        invariant Valid() && repr <= old(repr)
        invariant Midway(contents, all, removes, left, visited)
        invariant node == ring[|ring| - 1 - left]
        invariant Freed(freed, old(freed), visited, removes, hasFreeCb)
        decreases left
      {
        node, visited := Visit(node, removes, visited, all, left, old(freed));
        left := left - 1;
      }
      Apart(ring, |ring| - 1);
      ForeachEnds(contents, all, removes, visited);
    }

    /** `bt_list_move` with `src == dst`. */
    method MoveWithin(x: Ptr, atHead: bool)
      requires Valid()
      modifies this`ring, this`repr, this`contents, this`length, repr`next, repr`prev
      ensures Valid() && repr == old(repr)
      ensures contents == if x in old(contents) then Put(RemoveFirst(old(contents), x), x, atHead) else old(contents)
      ensures x !in old(contents) ==> contents == old(contents)
      ensures forall k :: FirstAt(old(contents), k, x) ==>
                var rest := old(contents)[..k] + old(contents)[k + 1..];
                contents == if atHead then [x] + rest else rest + [x]
    {
      FirstIs(contents, x);
      var node, found := Detach(x);
      if found {
        ghost var without := contents;
        Link(node, atHead);
        assert repr == old(repr) && contents == Put(without, x, atHead);
      }
    }
  }

  /** A foreach over `all` with `left` elements still to visit: the unvisited ones are still at the
      end of the list, and what is left to do gives the final contents. */
  ghost predicate Midway(s: seq<Ptr>, all: seq<Ptr>, removes: seq<bool>, left: int, visited: seq<Ptr>) {
    && 0 <= left <= |s| && left <= |all| == |removes|
    && visited == all[..|all| - left]
    && s[|s| - left..] == all[|all| - left..]
    && AfterForeach(s, all[|all| - left..], removes[|all| - left..]) == AfterForeach(all, all, removes)
  }

  /** The free callback ran for the visits marked so far, in order. */
  ghost predicate Freed(freed: seq<Ptr>, before: seq<Ptr>, visited: seq<Ptr>, removes: seq<bool>, hasFreeCb: bool) {
    |visited| <= |removes| && freed == before + (if hasFreeCb then Marked(visited, removes) else [])
  }

  lemma {:induction false} FreedAdvances(freed: seq<Ptr>, before: seq<Ptr>, visited: seq<Ptr>, removes: seq<bool>,
                                         hasFreeCb: bool, x: Ptr)
    requires Freed(freed, before, visited, removes, hasFreeCb) && |visited| < |removes|
    ensures var more := if hasFreeCb && removes[|visited|] then [x] else [];
            Freed(freed + more, before, visited + [x], removes, hasFreeCb)
  {
    MarkedAppend(visited, x, removes);
  }

  lemma {:induction false} ForeachBegins(all: seq<Ptr>, removes: seq<bool>)
    requires |all| == |removes|
    ensures Midway(all, all, removes, |all|, [])
  {
    assert all[0..] == all && removes[0..] == removes;
  }

  lemma {:induction false} ForeachAdvances(s: seq<Ptr>, all: seq<Ptr>, removes: seq<bool>, left: int, visited: seq<Ptr>)
    requires Midway(s, all, removes, left, visited) && left > 0
    ensures var x := s[|s| - left];
            |visited| < |removes| &&
            Midway(if removes[|visited|] then RemoveFirst(s, x) else s, all, removes, left - 1, visited + [x])
  {
    var i, x := |all| - left, s[|s| - left];
    ForeachStep(s, all, removes, left);
    assert |visited| == i;
    NextVisit(all, i, x, visited);
    if removes[i] {
      SuffixAfterRemove(s, x, left);
    }
  }

  lemma {:induction false} NextVisit(all: seq<Ptr>, i: nat, x: Ptr, visited: seq<Ptr>)
    requires i < |all| && x == all[i] && visited == all[..i]
    ensures visited + [x] == all[..i + 1]
  {
  }

  lemma {:induction false} SuffixAfterRemove(s: seq<Ptr>, x: Ptr, left: int)
    requires 0 < left <= |s| && s[|s| - left] == x
    ensures var r := RemoveFirst(s, x); |r| == |s| - 1 && r[|r| - (left - 1)..] == s[|s| - left + 1..]
  {
    var p := |s| - left;
    SuffixKept(s, x, p);
    assert |s| - left + 1 == p + 1 && |s| - 1 - (left - 1) == p;
  }

  lemma {:induction false} ForeachEnds(s: seq<Ptr>, all: seq<Ptr>, removes: seq<bool>, visited: seq<Ptr>)
    requires Midway(s, all, removes, 0, visited)
    ensures visited == all && s == AfterForeach(all, all, removes)
  {
  }

  /** One unfolding of AfterForeach, with `left` elements still to visit. */
  lemma {:induction false} ForeachStep(s: seq<Ptr>, all: seq<Ptr>, removes: seq<bool>, left: nat)
    requires |removes| == |all| && 0 < left <= |all| && left <= |s| && s[|s| - left..] == all[|all| - left..]
    ensures var i := |all| - left;
            && s[|s| - left] == all[i] && s[|s| - left + 1..] == all[i + 1..]
            && AfterForeach(s, all[i..], removes[i..]) ==
               AfterForeach(if removes[i] then RemoveFirst(s, all[i]) else s, all[i + 1..], removes[i + 1..])
  {
    var i := |all| - left;
    assert all[i..][0] == all[i] && all[i..][1..] == all[i + 1..] && removes[i..][1..] == removes[i + 1..];
    assert s[|s| - left..][0] == s[|s| - left] && s[|s| - left..][1..] == s[|s| - left + 1..];
  }

  lemma {:induction false} DropAcross(a: seq<Ptr>, b: seq<Ptr>, p: nat)
    requires |a| <= p <= |a| + |b|
    ensures (a + b)[p..] == b[p - |a|..]
  {
  }

  /** Removing the first match of the element at `p` leaves everything after `p` alone. */
  lemma {:induction false} SuffixKept(s: seq<Ptr>, x: Ptr, p: nat)
    requires p < |s| && s[p] == x
    ensures IndexOf(s, x) <= p && |RemoveFirst(s, x)| == |s| - 1 && RemoveFirst(s, x)[p..] == s[p + 1..]
  {
    var k := IndexOf(s, x);
    assert k <= p;
    DropAcross(s[..k], s[k + 1..], p);
    assert s[k + 1..][p - k..] == s[p + 1..];
  }

  /** `bt_list_move` between two lists: the payload changes place and is not freed. */
  method Move(src: List, dst: List, x: Ptr, atHead: bool)
    requires src != dst && src.Valid() && dst.Valid() && src.repr !! dst.repr
    modifies src`ring, src`repr, src`contents, src`length, src.repr`next, src.repr`prev
    modifies dst`ring, dst`repr, dst`contents, dst`length,
             dst.repr`next, dst.repr`prev
    ensures src.Valid() && dst.Valid() && src.repr !! dst.repr
    ensures src.contents == RemoveFirst(old(src.contents), x)
    ensures dst.contents == if x in old(src.contents) then Put(old(dst.contents), x, atHead) else old(dst.contents)
    ensures x !in old(src.contents) ==> src.contents == old(src.contents) && dst.contents == old(dst.contents)
    ensures forall k :: FirstAt(old(src.contents), k, x) ==>
              && src.contents == old(src.contents)[..k] + old(src.contents)[k + 1..]
              && dst.contents == if atHead then [x] + old(dst.contents) else old(dst.contents) + [x]
  {
    FirstIs(src.contents, x);
    var node, found := src.Detach(x);
    if found {
      dst.Link(node, atHead);
    }
  }
}
