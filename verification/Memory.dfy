/** The allocation tracker of debug/bt_memory.c: a singly linked list of live blocks, newest
    first, with a running total, its maximum, and guard bytes around each block. */
module Memory {
  import opened Seqs

  const GUARD_SIZE: nat := 16
  const GUARD_HEAD: nat := 0xAA
  const GUARD_TAIL: nat := 0xBB

  // ----- The tracker on values -----

  /** A live block; `intact` says that no guard byte was overwritten. */
  datatype Entry = Entry(addr: nat, size: nat, intact: bool)

  datatype Mem = Mem(blocks: seq<Entry>, current: int, peak: int, aborted: bool)

  const EMPTY := Mem([], 0, 0, false)

  /** `Malloc` carries the address the allocator returns, 0 when it fails; `Overrun` is a client
      writing over a guard byte of a block. */
  datatype Op = Malloc(addr: nat, size: nat) | Free(addr: nat) | Overrun(addr: nat)

  function IndexOf(bs: seq<Entry>, a: nat): (k: nat)
    ensures k <= |bs|
    ensures k < |bs| ==> bs[k].addr == a
    ensures forall i :: 0 <= i < k ==> bs[i].addr != a
  {
    if bs == [] || bs[0].addr == a then 0
    else
      var k := IndexOf(bs[1..], a);
      assert forall i :: 0 < i < k + 1 ==> bs[i] == bs[1..][i - 1];
      k + 1
  }

  ghost predicate Live(bs: seq<Entry>, a: nat) {
    exists i :: 0 <= i < |bs| && bs[i].addr == a
  }

  /** The allocator never returns the address of a live block. */
  ghost predicate Possible(m: Mem, op: Op) {
    op.Malloc? ==> !Live(m.blocks, op.addr)
  }

  function Step(m: Mem, op: Op): Mem {
    if m.aborted then m
    else
      match op
      case Malloc(a, n) =>
        if a == 0 then m
        else Mem([Entry(a, n, true)] + m.blocks, m.current + n, Max(m.peak, m.current + n), false)
      case Free(a) =>
        var k := IndexOf(m.blocks, a);
        if a == 0 then m
        else if k == |m.blocks| || !m.blocks[k].intact then m.(aborted := true)
        else
          m.(blocks := Without(m.blocks, k), current := m.current - m.blocks[k].size)
      case Overrun(a) =>
        var k := IndexOf(m.blocks, a);
        if k == |m.blocks| then m else m.(blocks := m.blocks[k := m.blocks[k].(intact := false)])
  }

  function Max(a: int, b: int): int { if a < b then b else a }

  function Sum(bs: seq<Entry>): nat {
    if bs == [] then 0 else bs[0].size + Sum(bs[1..])
  }

  lemma {:induction false} SumWithout(bs: seq<Entry>, k: nat)
    requires k < |bs|
    ensures Sum(Without(bs, k)) + bs[k].size == Sum(bs)
  {
    if k == 0 {
      assert Without(bs, 0) == bs[1..];
    } else {
      SumWithout(bs[1..], k - 1);
      assert Without(bs, k) == [bs[0]] + Without(bs[1..], k - 1);
    }
  }

  lemma {:induction false} SumUpdate(bs: seq<Entry>, k: nat, e: Entry)
    requires k < |bs| && e.size == bs[k].size
    ensures Sum(bs[k := e]) == Sum(bs)
  {
    if k == 0 {
      assert bs[0 := e][1..] == bs[1..];
    } else {
      SumUpdate(bs[1..], k - 1, e);
      assert bs[k := e][1..] == bs[1..][k - 1 := e];
    }
  }

  ghost predicate Proper(bs: seq<Entry>) {
    && (forall i, j :: 0 <= i < j < |bs| ==> bs[i].addr != bs[j].addr)
    && (forall i :: 0 <= i < |bs| ==> bs[i].addr != 0)
  }

  ghost predicate Inv(m: Mem) { m.current == Sum(m.blocks) && Proper(m.blocks) }

  lemma {:induction false} PushProper(bs: seq<Entry>, e: Entry)
    requires Proper(bs) && e.addr != 0 && !Live(bs, e.addr)
    ensures Proper([e] + bs) && Sum([e] + bs) == e.size + Sum(bs)
  {
    assert ([e] + bs)[1..] == bs;
  }

  lemma {:induction false} WithoutProper(bs: seq<Entry>, k: nat)
    requires Proper(bs) && k < |bs|
    ensures Proper(Without(bs, k))
  {
    var r := Without(bs, k);
    forall i, j | 0 <= i < j < |r| ensures r[i].addr != r[j].addr {
      assert r[i] == bs[if i < k then i else i + 1] && r[j] == bs[if j < k then j else j + 1];
    }
  }

  lemma {:induction false} StepInv(m: Mem, op: Op)
    requires Inv(m) && Possible(m, op)
    ensures Inv(Step(m, op))
  {
    var bs := m.blocks;
    match op
    case Malloc(a, n) =>
      if a != 0 {
        PushProper(bs, Entry(a, n, true));
      }
    case Free(a) =>
      var k := IndexOf(bs, a);
      if k < |bs| {
        SumWithout(bs, k);
        WithoutProper(bs, k);
      }
    case Overrun(a) =>
      var k := IndexOf(bs, a);
      if k < |bs| {
        SumUpdate(bs, k, bs[k].(intact := false));
      }
  }

  // ----- Every history -----

  ghost predicate Follow(m: Mem, op: Op, r: Mem) { Possible(m, op) && r == Step(m, op) }

  /** The states a history goes through, the first one first. */
  ghost predicate History(ms: seq<Mem>, ops: seq<Op>) {
    && |ms| == |ops| + 1 && ms[0] == EMPTY
    && (forall i, j :: 0 <= i < |ops| && j == i + 1 ==> Follow(ms[i], ops[i], ms[j]))
  }

  lemma {:induction false} HistoryInv(ms: seq<Mem>, ops: seq<Op>, i: nat)
    requires History(ms, ops) && i < |ms|
    ensures Inv(ms[i])
  {
    if i == 0 {
    } else {
      HistoryInv(ms, ops, i - 1);
      assert Follow(ms[i - 1], ops[i - 1], ms[i]);
      StepInv(ms[i - 1], ops[i - 1]);
    }
  }

  /** At every point the total is the sum of the live blocks, and the peak is the greatest total
      reached so far: none was greater and one was equal. */
  lemma {:induction false} PeakIsMaximum(ms: seq<Mem>, ops: seq<Op>, n: nat)
    requires History(ms, ops) && n < |ms|
    ensures ms[n].current == Sum(ms[n].blocks)
    ensures forall i :: 0 <= i <= n ==> ms[i].current <= ms[n].peak
    ensures exists i :: 0 <= i <= n && ms[i].current == ms[n].peak
  {
    HistoryInv(ms, ops, n);
    if n == 0 {
      assert ms[0].current == ms[0].peak;
    } else {
      PeakIsMaximum(ms, ops, n - 1);
      assert Follow(ms[n - 1], ops[n - 1], ms[n]);
      assert ms[n].peak == ms[n - 1].peak || ms[n].peak == ms[n].current;
    }
  }

  predicate Frees(op: Op, a: nat) { op == Free(a) }

  /** The block made by operation `i` is still unfreed after `n` operations. */
  ghost predicate Unfreed(ops: seq<Op>, i: nat, n: nat)
    requires i < n <= |ops|
  {
    && ops[i].Malloc? && ops[i].addr != 0
    && forall j :: i < j < n ==> !Frees(ops[j], ops[i].addr)
  }

  lemma {:induction false} UnfreedStep(ops: seq<Op>, i: nat, n: nat)
    requires i < n < |ops|
    ensures Unfreed(ops, i, n + 1) <==> Unfreed(ops, i, n) && !Frees(ops[n], ops[i].addr)
  {
  }

  predicate Made(op: Op, e: Entry) { op.Malloc? && op.addr == e.addr && op.size == e.size }

  predicate Newer(i: nat, j: nat) { i > j }

  /** `idx` lists, newest first, the operations that made the blocks `bs`. */
  ghost predicate Makers(bs: seq<Entry>, idx: seq<nat>, ops: seq<Op>, n: nat)
    requires n <= |ops|
  {
    && |idx| == |bs|
    && (forall k, m :: 0 <= k < m < |idx| ==> Newer(idx[k], idx[m]))
    && (forall k :: 0 <= k < |idx| ==> idx[k] < n && Unfreed(ops, idx[k], n) && Made(ops[idx[k]], bs[k]))
  }

  /** None is missing. */
  ghost predicate Complete(idx: seq<nat>, ops: seq<Op>, n: nat)
    requires n <= |ops|
  {
    forall i: nat :: i < n && Unfreed(ops, i, n) ==> i in idx
  }

  /** Until the program aborts, the list, and so the leak report, holds exactly the blocks
      allocated and not freed, each once, newest first. */
  lemma {:induction false} ReportIsUnfreed(ms: seq<Mem>, ops: seq<Op>, n: nat) returns (idx: seq<nat>)
    requires History(ms, ops) && n < |ms| && !ms[n].aborted
    ensures Makers(ms[n].blocks, idx, ops, n) && Complete(idx, ops, n)
  {
    if n == 0 {
      idx := [];
    } else {
      assert Follow(ms[n - 1], ops[n - 1], ms[n]);
      idx := ReportIsUnfreed(ms, ops, n - 1);
      HistoryInv(ms, ops, n - 1);
      idx := ReportStep(ms[n - 1], ops, n - 1, idx);
    }
  }

  lemma {:induction false} ReportStep(m: Mem, ops: seq<Op>, n: nat, idx: seq<nat>) returns (r: seq<nat>)
    requires n < |ops| && Inv(m) && !m.aborted && !Step(m, ops[n]).aborted
    requires Makers(m.blocks, idx, ops, n) && Complete(idx, ops, n)
    ensures Makers(Step(m, ops[n]).blocks, r, ops, n + 1) && Complete(r, ops, n + 1)
  {
    var op := ops[n];
    if op.Malloc? && op.addr != 0 {
      r := [n] + idx;
      ReportGrows(m.blocks, idx, ops, n);
    } else if op.Free? && op.addr != 0 {
      var k := IndexOf(m.blocks, op.addr);
      r := idx[..k] + idx[k + 1..];
      ReportShrinks(m.blocks, idx, ops, n, k);
    } else {
      r := idx;
      ReportStays(m.blocks, Step(m, op).blocks, idx, ops, n);
    }
  }

  lemma {:induction false} ReportStays(bs: seq<Entry>, cs: seq<Entry>, idx: seq<nat>, ops: seq<Op>, n: nat)
    requires n < |ops| && Makers(bs, idx, ops, n) && Complete(idx, ops, n)
    requires !(ops[n].Malloc? && ops[n].addr != 0) && (ops[n].Free? ==> ops[n].addr == 0)
    requires |cs| == |bs| && forall k :: 0 <= k < |bs| ==> cs[k].addr == bs[k].addr && cs[k].size == bs[k].size
    ensures Makers(cs, idx, ops, n + 1) && Complete(idx, ops, n + 1)
  {
    forall i: nat | i < n ensures Unfreed(ops, i, n + 1) <==> Unfreed(ops, i, n) {
      UnfreedStep(ops, i, n);
    }
  }

  lemma {:induction false} ReportGrows(bs: seq<Entry>, idx: seq<nat>, ops: seq<Op>, n: nat)
    requires n < |ops| && Makers(bs, idx, ops, n) && Complete(idx, ops, n)
    requires ops[n].Malloc? && ops[n].addr != 0
    ensures Makers([Entry(ops[n].addr, ops[n].size, true)] + bs, [n] + idx, ops, n + 1)
    ensures Complete([n] + idx, ops, n + 1)
  {
    forall i: nat | i < n ensures Unfreed(ops, i, n + 1) <==> Unfreed(ops, i, n) {
      UnfreedStep(ops, i, n);
    }
    assert Unfreed(ops, n, n + 1);
  }

  /** A free takes out the one entry of its address. */
  lemma {:induction false} ReportShrinks(bs: seq<Entry>, idx: seq<nat>, ops: seq<Op>, n: nat, k: nat)
    requires n < |ops| && Makers(bs, idx, ops, n) && Complete(idx, ops, n)
    requires Proper(bs) && k < |bs| && ops[n] == Free(bs[k].addr)
    ensures Makers(Without(bs, k), idx[..k] + idx[k + 1..], ops, n + 1)
    ensures Complete(idx[..k] + idx[k + 1..], ops, n + 1)
  {
    var r, cs := idx[..k] + idx[k + 1..], Without(bs, k);
    forall m | 0 <= m < |r|
      ensures r[m] == idx[Skip(m, k)] && cs[m] == bs[Skip(m, k)] && r[m] < n && Unfreed(ops, r[m], n + 1)
    {
      UnfreedStep(ops, r[m], n);
      assert Made(ops[idx[Skip(m, k)]], bs[Skip(m, k)]);
    }
    forall i: nat | i < n + 1 && Unfreed(ops, i, n + 1) ensures i in r {
      UnfreedStep(ops, i, n);
      var m :| 0 <= m < |idx| && idx[m] == i;
      assert Made(ops[idx[k]], bs[k]);
      assert m != k;
      assert r[if m < k then m else m - 1] == i;
    }
  }

  /** A free of a pointer that is not live, or of a block whose guards were overwritten, always
      reaches an assertion failure, and nothing else does. */
  lemma {:induction false} AbortsIff(m: Mem, op: Op)
    requires Inv(m) && !m.aborted
    ensures Step(m, op).aborted <==>
            op.Free? && op.addr != 0 &&
            (!Live(m.blocks, op.addr) ||
             exists i :: 0 <= i < |m.blocks| && m.blocks[i].addr == op.addr && !m.blocks[i].intact)
  {
  }

  // ----- The linked list -----

  class Block {
    const addr: nat
    const size: nat
    var guard: seq<nat>      // bytes of the header guard
    var tail: seq<nat>       // bytes after the payload
    var next: Block?

    constructor (addr: nat, size: nat, next: Block?)
      ensures this.addr == addr && this.size == size && this.next == next
      ensures guard == seq(GUARD_SIZE, _ => GUARD_HEAD) && tail == seq(GUARD_SIZE, _ => GUARD_TAIL)
    {
      this.addr, this.size, this.next := addr, size, next;
      guard, tail := seq(GUARD_SIZE, _ => GUARD_HEAD), seq(GUARD_SIZE, _ => GUARD_TAIL);
    }

    ghost predicate Sized()
      reads this`guard, this`tail
    {
      |guard| == |tail| == GUARD_SIZE
    }

    ghost predicate Intact()
      reads this`guard, this`tail
      requires Sized()
    {
      forall i :: 0 <= i < GUARD_SIZE ==> guard[i] == GUARD_HEAD && tail[i] == GUARD_TAIL
    }

    /** The guard loop of `bt_free_hook`. */
    method CheckGuards() returns (ok: bool)
      requires Sized()
      ensures ok <==> Intact()
    {
      for i := 0 to GUARD_SIZE
        invariant forall j :: 0 <= j < i ==> guard[j] == GUARD_HEAD && tail[j] == GUARD_TAIL
      {
        if guard[i] != GUARD_HEAD || tail[i] != GUARD_TAIL {
          return false;
        }
      }
      return true;
    }
  }

  datatype Outcome = Done | Aborted

  /** Block `i` points to block `j`, the last one to nothing. */
  ghost predicate Follows(chain: seq<Block>, i: nat, j: nat)
    requires i < |chain|
    reads {chain[i]}`next
  {
    chain[i].next == if j < |chain| then chain[j] else null
  }

  ghost predicate Links(chain: seq<Block>)
    reads chain`next
  {
    forall i, j :: 0 <= i < |chain| && j == i + 1 ==> Follows(chain, i, j)
  }

  ghost predicate Apart(a: Block, b: Block) { a != b }

  ghost predicate AllApart(chain: seq<Block>) {
    forall i, j :: 0 <= i < j < |chain| ==> Apart(chain[i], chain[j])
  }

  /** The blocks are those of the tracker. */
  ghost predicate Shown(chain: seq<Block>, bs: seq<Entry>)
    reads chain`guard, chain`tail
  {
    && |bs| == |chain|
    && (forall i :: 0 <= i < |chain| ==> chain[i].Sized())
    && (forall i :: 0 <= i < |chain| ==> bs[i] == Entry(chain[i].addr, chain[i].size, chain[i].Intact()))
  }

  lemma {:induction false} LinksPush(chain: seq<Block>, b: Block)
    requires Links(chain) && b.next == (if chain == [] then null else chain[0])
    ensures Links([b] + chain)
  {
    var r := [b] + chain;
    forall i, j | 0 <= i < |r| && j == i + 1 ensures Follows(r, i, j) {
      if i > 0 {
        assert Follows(chain, i - 1, j - 1);
      }
    }
  }

  /** All links but that to block `k` are in place, and the block before it points past it. */
  lemma {:induction false} LinksWithout(chain: seq<Block>, k: nat)
    requires k < |chain|
    requires forall i, j :: 0 <= i < |chain| && j == i + 1 && j != k ==> Follows(chain, i, j)
    requires k > 0 ==> chain[k - 1].next == if k + 1 < |chain| then chain[k + 1] else null
    ensures Links(Without(chain, k))
  {
    var r := Without(chain, k);
    WithoutAt(chain, k);
    forall i, j | 0 <= i < |r| && j == i + 1 ensures Follows(r, i, j) {
      if j != k {
        assert Follows(chain, Skip(i, k), Skip(i, k) + 1);
      }
    }
  }

  lemma {:induction false} RestWithout(chain: seq<Block>, bs: seq<Entry>, k: nat)
    requires k < |chain| && AllApart(chain) && Shown(chain, bs)
    ensures AllApart(Without(chain, k)) && Shown(Without(chain, k), Without(bs, k))
  {
    WithoutAt(chain, k);
    WithoutAt(bs, k);
    var r := Without(chain, k);
    forall i, j | 0 <= i < j < |r| ensures Apart(r[i], r[j]) {
      assert Apart(chain[Skip(i, k)], chain[Skip(j, k)]);
    }
  }

  /** The manager; `chain` lists the blocks from `memList` on. */
  class Manager {
    var memList: Block?
    var currentMem: int
    var peakMem: int
    ghost var chain: seq<Block>

    ghost predicate Valid()
      reads this, chain
    {
      memList == (if chain == [] then null else chain[0]) && Links(chain) && AllApart(chain)
    }

    /** The manager's state is the tracker's. */
    ghost predicate Shows(m: Mem)
      reads this, chain
    {
      Shown(chain, m.blocks) && currentMem == m.current && peakMem == m.peak
    }

    constructor ()
      ensures Valid() && Shows(EMPTY)
    {
      memList, currentMem, peakMem, chain := null, 0, 0, [];
    }

    /** The new block becomes the head of the list. */
    method Push(block: Block, ghost bs: seq<Entry>)
      requires Valid() && Shown(chain, bs) && block !in chain && block.next == memList
      requires block.Sized() && block.Intact()
      modifies this`memList, this`chain
      ensures Valid() && chain == [block] + old(chain) && Shown(chain, [Entry(block.addr, block.size, true)] + bs)
    {
      LinksPush(chain, block);
      memList := block;
      chain := [block] + chain;
    }

    /** `bt_malloc_hook` with the address the allocator returned. */
    method MallocHook(addr: nat, size: nat, ghost m: Mem)
      requires Valid() && Shows(m) && !m.aborted
      modifies this
      ensures Valid() && Shows(Step(m, Malloc(addr, size)))
      ensures fresh(set b | b in chain && b !in old(chain))
    {
      if addr == 0 {
        return;
      }
      var block := new Block(addr, size, memList);
      currentMem := currentMem + size;
      if currentMem > peakMem {
        peakMem := currentMem;
      }
      Push(block, m.blocks);
    }

    /** The walk of `bt_free_hook`: `prev` is the block whose `next` is `*pp`, null when `pp` is
        the list head. */
    method Search(addr: nat, ghost bs: seq<Entry>) returns (prev: Block?, node: Block?)
      requires Valid() && Shown(chain, bs)
      ensures var k := IndexOf(bs, addr);
              && node == (if k < |chain| then chain[k] else null)
              && prev == (if k > 0 then chain[k - 1] else null)
    {
      prev, node := null, memList;
      ghost var k := 0;
      while node != null && node.addr != addr
        invariant k <= |chain|
        invariant node == (if k < |chain| then chain[k] else null)
        invariant prev == (if k > 0 then chain[k - 1] else null)
        invariant forall i :: 0 <= i < k ==> bs[i].addr != addr
        decreases |chain| - k
      {
        assert Follows(chain, k, k + 1);
        prev, node := node, node.next;
        k := k + 1;
      }
      assert node != null ==> bs[k].addr == addr;
      assert k == IndexOf(bs, addr);
    }

    /** `*pp = node->next`. */
    method Unlink(prev: Block?, node: Block, ghost k: nat, ghost bs: seq<Entry>)
      requires Valid() && Shown(chain, bs) && k < |chain| && node == chain[k]
      requires prev == (if k > 0 then chain[k - 1] else null)
      modifies this`memList, this`chain, chain`next
      ensures Valid() && chain == Without(old(chain), k) && Shown(chain, Without(bs, k))
    {
      assert Follows(chain, k, k + 1);
      if prev == null {
        memList := node.next;
      } else {
        Relink(prev, node, k);
      }
      Shorten(k, bs);
    }

    /** The ghost list follows. */
    ghost method Shorten(k: nat, bs: seq<Entry>)
      requires k < |chain| && AllApart(chain) && Shown(chain, bs)
      requires forall i, j :: 0 <= i < |chain| && j == i + 1 && j != k ==> Follows(chain, i, j)
      requires k > 0 ==> chain[k - 1].next == if k + 1 < |chain| then chain[k + 1] else null
      requires memList == if k > 0 then chain[0] else if |chain| > 1 then chain[1] else null
      modifies this`chain
      ensures Valid() && chain == Without(old(chain), k) && Shown(chain, Without(bs, k))
    {
      LinksWithout(chain, k);
      RestWithout(chain, bs, k);
      WithoutAt(chain, k);
      chain := Without(chain, k);
    }

    /** The block before `node` points past it; no other link changes. */
    method Relink(prev: Block, node: Block, ghost k: nat)
      requires 0 < k < |chain| && Links(chain) && AllApart(chain) && node == chain[k] && prev == chain[k - 1]
      modifies chain`next
      ensures forall i, j :: 0 <= i < |chain| && j == i + 1 && j != k ==> Follows(chain, i, j)
      ensures chain[k - 1].next == if k + 1 < |chain| then chain[k + 1] else null
    {
      assert Follows(chain, k, k + 1);
      prev.next := node.next;
      forall i, j | 0 <= i < |chain| && j == i + 1 && j != k ensures Follows(chain, i, j) {
        assert old(Follows(chain, i, j));
        assert if i < k - 1 then Apart(chain[i], chain[k - 1]) else Apart(chain[k - 1], chain[i]);
      }
    }

    /** `bt_free_hook`. */
    method FreeHook(addr: nat, ghost m: Mem) returns (o: Outcome)
      requires Valid() && Shows(m) && !m.aborted
      modifies this, chain`next
      ensures Valid() && Shows(Step(m, Free(addr)))
      ensures o.Aborted? <==> Step(m, Free(addr)).aborted
    {
      if addr == 0 {
        return Done;
      }
      var prev, node := Search(addr, m.blocks);
      if node == null {
        return Aborted;
      }
      o := FreeFound(addr, prev, node, m);
    }

    /** The part of it inside the loop, for the block found. */
    method FreeFound(addr: nat, prev: Block?, node: Block, ghost m: Mem) returns (o: Outcome)
      requires Valid() && Shows(m) && !m.aborted && addr != 0
      requires var k := IndexOf(m.blocks, addr);
               k < |chain| && node == chain[k] && prev == (if k > 0 then chain[k - 1] else null)
      modifies this, chain`next
      ensures Valid() && Shows(Step(m, Free(addr)))
      ensures o.Aborted? <==> Step(m, Free(addr)).aborted
    {
      var ok := node.CheckGuards();
      if !ok {
        return Aborted;
      }
      currentMem := currentMem - node.size;
      Unlink(prev, node, IndexOf(m.blocks, addr), m.blocks);
      o := Done;
    }

    /** `bt_report_leak`: the lines of the report. */
    method ReportLeak(ghost m: Mem) returns (lines: seq<(nat, nat)>)
      requires Valid() && Shows(m)
      ensures |lines| == |m.blocks| && forall i :: 0 <= i < |lines| ==> lines[i] == (m.blocks[i].addr, m.blocks[i].size)
    {
      lines := [];
      var node := memList;
      while node != null
        invariant |lines| <= |chain| && node == (if |lines| < |chain| then chain[|lines|] else null)
        invariant forall i :: 0 <= i < |lines| ==> lines[i] == (m.blocks[i].addr, m.blocks[i].size)
        decreases |chain| - |lines|
      {
        assert Follows(chain, |lines|, |lines| + 1);
        lines := lines + [(node.addr, node.size)];
        node := node.next;
      }
    }
  }
}
