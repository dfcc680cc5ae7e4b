/**
  Block pools: rt-thread/kernel/src/mempool.c.  Each block begins with a word that links it to the
  next free block, or, while the block is out, names its pool.
 */
module MemPool {
  import opened Wrappers
  import opened Queues
  import opened WaitQueues

  datatype Outcome = OK | TIMEDOUT | BLOCKED

  /** Every block is free or out, never both. */
  ghost predicate Split(freed: seq<Node>, out: set<Node>, count: nat) {
    && NoDup(freed) && (forall n :: n in freed ==> n < count && n !in out) && (forall n :: n in out ==> n < count)
    && |freed| + |out| == count
  }

  lemma SplitTake(freed: seq<Node>, out: set<Node>, count: nat)
    requires Split(freed, out, count) && freed != []
    ensures Split(freed[1..], out + {freed[0]}, count) && freed[0] !in out && freed[0] < count
  {
    assert freed[0] in freed && freed[0] !in freed[1..];
    assert forall n :: n in freed[1..] ==> n in freed;
    assert NoDup(freed[1..]);
  }

  lemma SplitGive(freed: seq<Node>, out: set<Node>, count: nat, n: Node)
    requires Split(freed, out, count) && n in out
    ensures Split([n] + freed, out - {n}, count)
  {
  }

  /** Where the payload of block n begins: behind its word. */
  function Address(n: Node, blockSize: nat): nat {
    n * (blockSize + 4) + 4
  }

  /** Payloads lie inside the pool and do not meet, link words included. */
  lemma PayloadsApart(m: Node, n: Node, blockSize: nat, count: nat)
    requires m < n < count
    ensures Address(m, blockSize) + blockSize <= Address(n, blockSize) - 4
    ensures Address(n, blockSize) + blockSize <= (blockSize + 4) * count
  {
    var w := blockSize + 4;
    assert m * w + w == (m + 1) * w <= n * w;
    assert n * w + w == (n + 1) * w <= count * w;
  }

  /** The blocks 0, 1, ..., count - 1. */
  ghost function Blocks(count: nat): (s: seq<Node>)
    ensures |s| == count && forall i :: 0 <= i < count ==> s[i] == i
  {
    if count == 0 then [] else Blocks(count - 1) + [count - 1]
  }

  /** The loop of rt_mp_init that links each block to the next. */
  method FirstChain(count: nat) returns (next: Next)
    requires count > 0
    ensures Chain(next, Some(0), Blocks(count)) && Split(Blocks(count), {}, count)
  {
    next := map[];
    var k := 0;
    while k < count
      invariant 0 <= k <= count
      invariant forall i: nat :: i < k ==> i in next && next[i] == if i + 1 < count then Some(i + 1) else None
    {
      next := next[k := if k + 1 < count then Some(k + 1) else None];
      k := k + 1;
    }
    ChainBlocks(next, count);
  }

  lemma ChainBlocks(next: Next, count: nat)
    requires count > 0
    requires forall i: nat :: i < count ==> i in next && next[i] == if i + 1 < count then Some(i + 1) else None
    ensures Chain(next, Some(0), Blocks(count)) && Split(Blocks(count), {}, count)
  {
    var s := Blocks(count);
    forall i | 0 <= i < |s| ensures s[i] in next && next[s[i]] == After(s, i) {
      assert s[i] == i;
    }
  }

  /** The address, as the machine computes it, of the word that rt_mp_init marks as the end of the list. */
  function EndMark(start: nat, count: nat, each: nat): nat {
    (start + (count - 1) % 0x1_0000_0000 * each) % 0x1_0000_0000
  }

  lemma EndMarkNone(start: nat, each: nat)
    requires each <= start < 0x1_0000_0000
    ensures EndMark(start, 0, each) == start - each
  {
    assert 0xFFFF_FFFF * each == 0x1_0000_0000 * each - each;
    ModShift(start - each, each);
  }

  lemma EndMarkLast(start: nat, size: nat, count: nat, each: nat)
    requires count > 0 && each >= 4 && each * count <= size && start + size <= 0x1_0000_0000
    ensures start <= EndMark(start, count, each) <= start + size - 4
  {
    CountSmall(count, each, size);
    var x := (count - 1) * each;
    assert x == each * count - each && x >= 0;
    assert (count - 1) % 0x1_0000_0000 == count - 1;
  }

  /** The mark is written into the pool exactly if the pool has room for a block; else it is written in front. */
  lemma EndMarkInside(start: nat, size: nat, each: nat)
    requires 4 <= each <= start < start + size <= 0x1_0000_0000
    ensures var mark := EndMark(start, Fitting(size, each), each);
      (start <= mark <= start + size - 4 <==> size >= each) && (size < each ==> mark == start - each)
  {
    var count := Fitting(size, each);
    if count > 0 {
      EndMarkLast(start, size, count, each);
    } else {
      EndMarkNone(start, each);
    }
  }

  lemma CountSmall(count: nat, each: nat, size: nat)
    requires each > 0 && each * count <= size <= 0x1_0000_0000
    ensures count <= 0x1_0000_0000
  {
    assert (each - 1) * count >= 0;
  }

  lemma ChainUnused(next: Next, first: Option<Node>, s: seq<Node>, n: Node)
    requires Chain(next, first, s) && n !in s
    ensures Chain(next - {n}, first, s)
  {
    forall i | 0 <= i < |s| ensures s[i] in next - {n} && (next - {n})[s[i]] == After(s, i) {
      assert s[i] in s;
    }
  }

  /** rt_mp_free: the word before the block leads back to the pool that the block came from. */
  method FreeBlock(pool: RtMemPool, block: Node)
    requires pool.Valid() && block in pool.out
    modifies pool, pool.waiters
    ensures pool.Valid() && pool.out == old(pool.out) - {block} && pool.freed == [block] + old(pool.freed)
    ensures pool.waiters.queue == var q := old(pool.waiters.queue); if q == [] then [] else q[1..]
  {
    var mp := pool.owner[block];
    mp.Free(block);
  }

  class RtMemPool {
    const blockSize: nat
    const blockCount: nat
    /** The words of the blocks that are not out: links to the next free block. */
    var next: Next
    /** The words of the blocks that are out: the pool itself. */
    var owner: map<Node, RtMemPool>
    var blockList: Option<Node>
    var freeCount: nat
    const waiters: WaitList
    ghost var freed: seq<Node>
    ghost var out: set<Node>

    ghost predicate Stored()
      reads this
    {
      && (blockCount > 0 ==> Chain(next, blockList, freed)) && Split(freed, out, blockCount) && freeCount == |freed|
      && next.Keys !! owner.Keys && (forall n :: n in out ==> n in owner && owner[n] == this)
    }

    ghost predicate Valid()
      reads this, waiters
    {
      Stored() && waiters.Serves(freeCount)
    }

    /** rt_mp_init: block k links to block k + 1, the last one to none; EndMarkInside says where that mark goes. */
    constructor (size: nat, blockSize: nat)
      requires blockSize > 0
      ensures Valid() && out == {} && freeCount == blockCount && fresh(waiters) && waiters.queue == []
      ensures this.blockSize == AlignUp(blockSize)
      ensures (this.blockSize + 4) * blockCount <= AlignDown(size) < (this.blockSize + 4) * (blockCount + 1)
    {
      var aligned := AlignUp(blockSize);
      var count := Fitting(AlignDown(size), aligned + 4);
      this.blockSize, blockCount := aligned, count;
      var next0 := map[];
      if count > 0 {
        next0 := FirstChain(count);
      }
      next, freed, out, owner := next0, Blocks(count), {}, map[];
      freeCount := count;
      blockList := Some(0);
      var w := new WaitList();
      waiters := w;
    }

    /** rt_mp_alloc, from entry or from being resumed to the next suspension; waiters go to the front. */
    method Alloc(t: Tid, time: int) returns (r: Outcome, block: Node)
      requires Valid() && t !in waiters.queue
      modifies this, waiters
      ensures Valid()
      ensures r == if old(freeCount) > 0 then OK else if time == 0 then TIMEDOUT else BLOCKED
      ensures r == OK ==> block < blockCount && block !in old(out) && out == old(out) + {block} && block == old(freed)[0]
      ensures r != OK ==> out == old(out) && freed == old(freed)
      ensures waiters.queue == if r == BLOCKED then [t] + old(waiters.queue) else old(waiters.queue)
    {
      block := 0;
      waiters.Runs(t, freeCount);
      if freeCount == 0 {
        if time == 0 {
          return TIMEDOUT, 0;
        }
        waiters.Join(t, 0);
        return BLOCKED, 0;
      }
      block := Pop();
      r := OK;
    }

    /** The block list is not empty here, as the source asserts. */
    method Pop() returns (block: Node)
      requires Stored() && freeCount > 0
      modifies this
      ensures Stored() && freeCount == old(freeCount) - 1
      ensures block < blockCount && block !in old(out) && out == old(out) + {block} && block == old(freed)[0]
    {
      freeCount := freeCount - 1;
      block := blockList.value;
      SplitTake(freed, out, blockCount);
      ChainTail(next, blockList, freed);
      blockList := next[block];
      ChainUnused(next, blockList, freed[1..], block);
      next, owner := next - {block}, owner[block := this];
      freed, out := freed[1..], out + {block};
    }

    /** rt_mp_free once the pool is known, of a block that is out. */
    method Free(block: Node)
      requires Valid() && block in out
      modifies this, waiters
      ensures Valid() && out == old(out) - {block} && freed == [block] + old(freed)
      ensures waiters.queue == var q := old(waiters.queue); if q == [] then [] else q[1..]
    {
      freeCount := freeCount + 1;
      ChainPush(next, blockList, freed, block);
      SplitGive(freed, out, blockCount, block);
      next, owner := next[block := blockList], owner - {block};
      blockList := Some(block);
      freed, out := [block] + freed, out - {block};
      waiters.Wake(freeCount - 1);
    }

    /** The thread timer of a waiter expires. */
    method Expire(t: Tid)
      requires Valid()
      modifies waiters
      ensures Valid() && waiters.queue == Without(old(waiters.queue), t)
    {
      waiters.Leave(t, freeCount);
    }
  }
}
