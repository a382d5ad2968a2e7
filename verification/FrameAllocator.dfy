/**
 The frame allocator in its own form: fields changed in place by loops.  `View` is the state
 of `FrameMalloc`; every method is proved to do to it what that module's functions say, so
 that what is proved there of whole runs holds of this code.
*/
module FrameAllocator {
  import opened FrameMalloc

  /** What an allocation returns; too large a frame, or no worker, goes to the system allocator. */
  datatype Memory = Frame(address: int) | FromSystem

  /** The worker of a call, if there is one. */
  datatype Caller = NoWorker | Worker(w: nat)

  lemma CoreOrder(s: State)
    requires Core(s)
    ensures s.poolBegin <= s.poolEnd
  {
  }

  lemma KeepCountMeets(len: nat, potential: nat, size: nat, n: nat)
    requires size > 0 && n <= len
    requires n == len || 2 * (n * size) >= potential
    requires n > 0 ==> 2 * ((n - 1) * size) < potential
    ensures n == KeepCount(len, potential, size)
  {
    var half := (potential + 2 * size - 1) / (2 * size);
    assert 2 * (n * size) == n * (2 * size);
    if n > 0 {
      assert 2 * ((n - 1) * size) == (n - 1) * (2 * size);
      DivAtLeast(potential, 2 * size, n - 1);
    }
    if n < len {
      DivAtMost(potential, 2 * size, n);
    }
  }

  lemma DivAtLeast(p: nat, d: nat, n: nat)
    requires d > 0 && n * d < p
    ensures n < (p + d - 1) / d
  {
    var q := (p + d - 1) / d;
    if q <= n {
      assert (p + d - 1) == q * d + (p + d - 1) % d;
      MulMono(q, n, d);
    }
  }

  lemma DivAtMost(p: nat, d: nat, n: nat)
    requires d > 0 && n * d >= p
    ensures (p + d - 1) / d <= n
  {
    var q := (p + d - 1) / d;
    assert (n + 1) * d == n * d + d;
    if q > n {
      assert (p + d - 1) == q * d + (p + d - 1) % d;
      MulMono(n + 1, q, d);
    }
  }

  lemma BatchCountMeets(b: nat, n: nat)
    requires b < NBUCKETS && n > 0 && n * BucketSize(b) >= BATCH_SIZE && (n - 1) * BucketSize(b) < BATCH_SIZE
    ensures n == BatchCount(b)
  {
    DivAtLeast(BATCH_SIZE, BucketSize(b), n - 1);
    DivAtMost(BATCH_SIZE, BucketSize(b), n);
  }

  /** Bytes on the first `n` free lists. */
  function BytesBelow(lists: seq<seq<int>>, n: nat): int
    requires |lists| == NBUCKETS
  {
    (if n > 0 then 64 * |lists[0]| else 0) + (if n > 1 then 128 * |lists[1]| else 0)
    + (if n > 2 then 256 * |lists[2]| else 0) + (if n > 3 then 512 * |lists[3]| else 0)
    + (if n > 4 then 1024 * |lists[4]| else 0) + (if n > 5 then 2048 * |lists[5]| else 0)
  }

  class Allocator {
    var poolBegin: int
    var poolEnd: int
    var poolList: seq<int>
    var globalFree: seq<seq<int>>
    var allocatedFromOs: int
    var allocatedFromGlobalPool: int
    var wasted: int
    var workers: seq<Cache>
    /** The operating system: the next chunk, given those it handed out before. */
    const os: seq<int> -> int
    ghost var blocks: map<int, Block>

    ghost function View(): State
      reads this
    {
      State(poolBegin, poolEnd, poolList, globalFree, allocatedFromOs, allocatedFromGlobalPool, wasted, workers, blocks)
    }

    ghost predicate Valid()
      reads this
    {
      Inv(View()) && OsOk(os)
    }

    constructor GlobalInit(nworkers: nat, os: seq<int> -> int)
      requires OsOk(os)
      ensures Valid() && View() == Init(nworkers) && this.os == os
    {
      poolBegin, poolEnd, poolList := 0, 0, [];
      globalFree := EmptyLists();
      allocatedFromOs, allocatedFromGlobalPool, wasted := 0, 0, 0;
      workers := NewCaches(nworkers);
      blocks := map[];
      this.os := os;
      new;
      hide Inv, OsOk;
      InitInv(nworkers);
    }

    // ------------------------------------------------------------ the global pool

    method ExtendGlobalPool()
      modifies this
      ensures View() == Extend(old(View()), os)
      ensures poolBegin == os(old(poolList)) && poolEnd == poolBegin + CHUNK && poolList == [poolBegin] + old(poolList)
      ensures allocatedFromOs == old(allocatedFromOs) + CHUNK
    {
      poolBegin := os(poolList);
      poolEnd := poolBegin + CHUNK;
      allocatedFromOs := allocatedFromOs + CHUNK;
      poolList := [poolBegin] + poolList;
    }

    method PoolAlloc(b: nat) returns (mem: int)
      requires |globalFree| == NBUCKETS && b < NBUCKETS && poolBegin <= poolEnd
      modifies this
      ensures (View(), mem) == GlobalAlloc(old(View()), b, os)
      ensures allocatedFromGlobalPool == old(allocatedFromGlobalPool) + BucketSize(b)
      ensures old(globalFree)[b] != [] ==>
        && [mem] + globalFree[b] == old(globalFree)[b] && globalFree == old(globalFree)[b := globalFree[b]]
        && unchanged(`poolBegin, `poolEnd, `poolList, `allocatedFromOs, `wasted)
      ensures old(globalFree)[b] == [] ==> unchanged(`globalFree) && poolBegin == mem + BucketSize(b) <= poolEnd
      ensures old(globalFree)[b] == [] && old(poolBegin) + BucketSize(b) <= old(poolEnd) ==>
        mem == old(poolBegin) && unchanged(`poolEnd, `poolList, `allocatedFromOs, `wasted)
      ensures old(globalFree)[b] == [] && old(poolBegin) + BucketSize(b) > old(poolEnd) ==>
        && mem == os(old(poolList)) && poolEnd == mem + CHUNK && poolList == [mem] + old(poolList)
        && allocatedFromOs == old(allocatedFromOs) + CHUNK && wasted == old(wasted) + (old(poolEnd) - old(poolBegin))
    {
      var size := BucketSize(b);
      allocatedFromGlobalPool := allocatedFromGlobalPool + size;
      var list := globalFree[b];
      if list != [] {
        mem := list[0];
        globalFree := globalFree[b := list[1..]];
      } else {
        assert poolBegin <= poolEnd;
        if poolBegin + size > poolEnd {
          wasted := wasted + (poolEnd - poolBegin);
          ExtendGlobalPool();
        }
        mem := poolBegin;
        poolBegin := poolBegin + size;
      }
    }

    method PoolFree(p: int, b: nat)
      requires |globalFree| == NBUCKETS && b < NBUCKETS
      modifies this
      ensures View() == GlobalFree(old(View()), p, b)
      ensures allocatedFromGlobalPool == old(allocatedFromGlobalPool) - BucketSize(b)
      ensures globalFree == old(globalFree)[b := [p] + old(globalFree)[b]] && blocks == old(blocks)[p := Block(b, Pooled)]
      ensures unchanged(`poolBegin, `poolEnd, `poolList, `allocatedFromOs, `wasted, `workers)
    {
      allocatedFromGlobalPool := allocatedFromGlobalPool - BucketSize(b);
      globalFree := globalFree[b := [p] + globalFree[b]];
      blocks := blocks[p := Block(b, Pooled)];
    }

    // ------------------------------------------------------------ a worker's lists

    method Store(w: nat, b: nat, list: seq<int>, potential: nat)
      requires Usable(View(), w, b)
      modifies this`workers
      ensures View() == SetList(old(View()), w, b, list, potential)
    {
      var c := workers[w];
      workers := workers[w := c.(freeList := c.freeList[b := list], potential := c.potential[b := potential])];
    }

    /** One turn of the batch loop. */
    method AddOne(w: nat, b: nat)
      requires Core(View()) && Usable(View(), w, b) && OsOk(os)
      modifies this
      ensures View() == Refill(old(View()), w, b, os)
    {
      hide Core, OsOk;
      ghost var s := View();
      var size := BucketSize(b);
      var c := workers[w];
      CoreOrder(s);
      var mem := PoolAlloc(b);
      Store(w, b, [mem] + c.freeList[b], c.potential[b] + size);
      blocks := blocks[mem := Block(b, Cached(w))];
    }

    method AllocateBatch(w: nat, b: nat)
      requires Core(View()) && Usable(View(), w, b) && OsOk(os)
      modifies this
      ensures View() == RefillN(old(View()), w, b, BatchCount(b), os)
    {
      hide Core, OsOk, Refill;
      ghost var s := View();
      var size := BucketSize(b);
      AddOne(w, b);
      assert View() == RefillN(s, w, b, 1, os) by { assert RefillN(s, w, b, 0, os) == s; }
      var bytesAllocated := size;
      ghost var n: nat := 1;
      while bytesAllocated < BATCH_SIZE
        invariant 0 < n && bytesAllocated == n * size && (n - 1) * size < BATCH_SIZE
        invariant View() == RefillN(s, w, b, n, os)
        decreases BATCH_SIZE - bytesAllocated
      {
        RefillNCore(s, w, b, n, os);
        AddOne(w, b);
        n := n + 1;
        bytesAllocated := bytesAllocated + size;
        assert (n - 1) * size + size == n * size;
      }
      BatchCountMeets(b, n);
    }

    /** Count up to half the potential's worth of blocks, then free what follows the next one. */
    method GcBucket(w: nat, b: nat)
      requires Usable(View(), w, b)
      modifies this
      ensures View() == Trim(old(View()), w, b)
      ensures WellFormed(old(View())) ==> TrimDoes(old(View()), View(), w, b)
    {
      hide Return, TrimDoes;
      if WellFormed(View()) {
        TrimGives(View(), w, b);
      }
      var size := BucketSize(b);
      var list, pot := workers[w].freeList[b], workers[w].potential[b];
      var p, newpot := 0, 0;
      while p < |list| && 2 * newpot < pot
        invariant 0 <= p <= |list| && newpot == p * size
        invariant p > 0 ==> 2 * ((p - 1) * size) < pot
      {
        assert (p + 1) * size == p * size + size;
        p := p + 1;
        newpot := newpot + size;
      }
      KeepCountMeets(|list|, pot, size, p);
      Store(w, b, list, newpot);
      if p < |list| {
        FreeRest(w, b, p);
      }
    }

    /** Pop everything after element `p`, one block at a time. */
    method FreeRest(w: nat, b: nat, p: nat)
      requires Usable(View(), w, b) && p < |List(View(), w, b)|
      modifies this
      ensures View() == ReturnAfter(old(View()), w, b, p + 1)
    {
      hide Return;
      while p + 1 < |workers[w].freeList[b]|
        invariant Usable(View(), w, b) && p < |List(View(), w, b)|
        invariant ReturnAfter(View(), w, b, p + 1) == ReturnAfter(old(View()), w, b, p + 1)
        decreases |List(View(), w, b)|
      {
        PopAfter(w, b, p + 1);
      }
    }

    /** Unlink element `k` of a worker's list and free it globally. */
    method PopAfter(w: nat, b: nat, k: nat)
      requires Usable(View(), w, b) && k < |List(View(), w, b)|
      modifies this
      ensures View() == Return(old(View()), w, b, k)
    {
      var list := workers[w].freeList[b];
      var q := list[k];
      Store(w, b, list[..k] + list[k + 1..], workers[w].potential[b]);
      PoolFree(q, b);
    }

    // ------------------------------------------------------------ the interface

    /** The first bucket whose blocks are large enough. */
    static method BucketOfSize(size: nat) returns (b: nat)
      requires size <= MAX_SIZE
      ensures b < NBUCKETS && size <= BucketSize(b) && forall c :: 0 <= c < b ==> BucketSize(c) < size
      ensures b == BucketOf(size)
    {
      b := 0;
      while b < NBUCKETS
        invariant b <= NBUCKETS && forall c :: 0 <= c < b ==> BucketSize(c) < size
        invariant b > 0 ==> BucketSize(b - 1) < size
      {
        if size <= BucketSize(b) {
          return;
        }
        b := b + 1;
      }
      assert false;
    }

    method FrameMalloc(caller: Caller, size: nat) returns (mem: Memory)
      requires Valid()
      requires caller.Worker? ==> Active(View(), caller.w)
      modifies this
      ensures Valid()
      ensures caller.NoWorker? || size > MAX_SIZE ==> mem == FromSystem && View() == old(View())
      ensures caller.Worker? && size <= MAX_SIZE ==>
        && mem.Frame? && (View(), mem.address) == Malloc(old(View()), caller.w, BucketOf(size), os)
        && MallocDoes(old(View()), View(), caller.w, BucketOf(size), mem.address)
      ensures mem.Frame? ==> mem.address in blocks && blocks[mem.address] == Block(BucketOf(size), Live)
      ensures mem.Frame? && mem.address in old(blocks) ==> old(blocks)[mem.address].place != Live
    {
      hide Inv, OsOk, RefillN, MallocDoes;
      if caller.NoWorker? || size > MAX_SIZE {
        return FromSystem;
      }
      var w := caller.w;
      var b := BucketOfSize(size);
      ghost var s := View();
      MallocInv(s, w, b, os);
      MallocOutright(s, w, b, os);
      if workers[w].freeList[b] == [] {
        InvCore(s);
        AllocateBatch(w, b);
      }
      assert View() == Stocked(s, w, b, os);
      var list := workers[w].freeList[b];
      assert list != [];
      Store(w, b, list[1..], workers[w].potential[b]);
      blocks := blocks[list[0] := Block(b, Live)];
      mem := Frame(list[0]);
    }

    method FrameFree(caller: Caller, p: int, size: nat)
      requires Valid()
      requires caller.Worker? && size <= MAX_SIZE ==> Allowed(View(), DoFree(caller.w, p, size))
      modifies this
      ensures Valid()
      ensures caller.NoWorker? || size > MAX_SIZE ==> View() == old(View())
      ensures caller.Worker? && size <= MAX_SIZE ==> View() == Free(old(View()), caller.w, p, BucketOf(size))
      ensures caller.Worker? && size <= MAX_SIZE ==> FreeDoes(old(View()), View(), caller.w, p, BucketOf(size))
    {
      hide Inv, OsOk, Trim, FreeDoes;
      if caller.NoWorker? || size > MAX_SIZE {
        return;
      }
      var w := caller.w;
      var b := BucketOfSize(size);
      ghost var s := View();
      FreeInv(s, w, p, b);
      FreeOutright(s, w, p, b);
      var c := workers[w];
      Store(w, b, [p] + c.freeList[b], c.potential[b] + BucketSize(b));
      blocks := blocks[p := Block(b, Cached(w))];
      assert View() == Put(s, w, p, b);
      if workers[w].potential[b] > POTENTIAL_LIMIT {
        GcBucket(w, b);
      }
    }

    // ------------------------------------------------------------ cleanup

    /** Pops a copy of the list head: the worker's own pointer is not changed. */
    method MoveBucketToGlobalFreeList(w: nat, b: nat, ghost s: State)
      requires Usable(s, w, b) && w < |workers| && |workers[w].potential| == NBUCKETS
      requires View() == s.(caches := workers) && |workers[w].freeList| == NBUCKETS && workers[w].freeList[b] == List(s, w, b)
      modifies this
      ensures View() == ReturnAfter(s, w, b, 0).(caches := workers)
      ensures workers == old(workers)[w := old(workers)[w].(potential := old(workers)[w].potential[b := 0])]
    {
      ghost var t := s;
      var p := workers[w].freeList[b];
      while p != []
        invariant Usable(t, w, b) && p == List(t, w, b) && View() == t.(caches := workers) && workers == old(workers)
        invariant ReturnAfter(t, w, b, 0) == ReturnAfter(s, w, b, 0)
        decreases |p|
      {
        t := Return(t, w, b, 0);
        assert p[..0] + p[1..] == p[1..];
        var q := p[0];
        p := p[1..];
        PoolFree(q, b);
      }
      workers := workers[w := workers[w].(potential := workers[w].potential[b := 0])];
    }

    lemma ReturnAfterKeepsOthers(s: State, w: nat, b: nat)
      requires Usable(s, w, b)
      ensures var t := ReturnAfter(s, w, b, 0);
        forall c :: 0 <= c < NBUCKETS && c != b ==> t.caches[w].freeList[c] == s.caches[w].freeList[c]
      decreases |List(s, w, b)|
    {
      if List(s, w, b) != [] {
        ReturnAfterKeepsOthers(Return(s, w, b, 0), w, b);
      }
    }

    /** After this the worker is destroyed. */
    method PerWorkerCleanup(w: nat)
      requires Valid() && Active(View(), w)
      modifies this
      ensures Valid() && View() == Retire(old(View()), w)
      ensures workers[w].retired && SameLive(old(View()), View())
      ensures |workers| == |old(workers)| && forall v :: 0 <= v < |workers| && v != w ==> workers[v] == old(workers)[v]
    {
      hide Inv, OsOk, ReturnAfter;
      ghost var s := View();
      ghost var t := s;
      var b := 0;
      while b < NBUCKETS
        invariant 0 <= b <= NBUCKETS && Active(t, w) && w < |workers| && View() == t.(caches := workers)
        invariant ReturnAll(t, w, b) == ReturnAll(s, w, 0)
        invariant forall c :: b <= c < NBUCKETS ==> t.caches[w].freeList[c] == s.caches[w].freeList[c]
        invariant |workers| == |s.caches| && workers == s.caches[w := workers[w]]
        invariant workers[w].freeList == s.caches[w].freeList && !workers[w].retired && |workers[w].potential| == NBUCKETS
        invariant forall c :: 0 <= c < b ==> workers[w].potential[c] == 0
      {
        ReturnAfterKeepsOthers(t, w, b);
        MoveBucketToGlobalFreeList(w, b, t);
        t := ReturnAfter(t, w, b, 0);
        b := b + 1;
      }
      assert workers[w].potential == [0, 0, 0, 0, 0, 0];
      workers := workers[w := workers[w].(retired := true)];
      RetireInv(s, w);
      assert View() == Retire(s, w);
    }

    method CountMemoryInGlobalList() returns (total: int)
      requires |globalFree| == NBUCKETS
      ensures total == Bytes(globalFree)
    {
      total := 0;
      var i := 0;
      while i < NBUCKETS
        invariant 0 <= i <= NBUCKETS && total == BytesBelow(globalFree, i)
      {
        var p, inBucket := globalFree[i], 0;
        while p != []
          invariant inBucket == BucketSize(i) * (|globalFree[i]| - |p|)
        {
          inBucket := inBucket + BucketSize(i);
          p := p[1..];
        }
        total := total + inBucket;
        i := i + 1;
      }
    }

    /** The reports of global cleanup, and the chunks it gives back. */
    method GlobalCleanup() returns (corrupted: bool, leak: bool, freed: seq<int>)
      requires Valid()
      modifies this
      ensures !corrupted
      ensures (forall v :: 0 <= v < |workers| ==> workers[v].retired) ==>
        (leak <==> exists a :: a in blocks && blocks[a].place == Live)
      ensures freed == old(poolList) && poolList == [] && View() == old(View()).(poolList := [])
    {
      hide Inv, OsOk;
      NeverCorrupted(View());
      var memoryInGlobalList := CountMemoryInGlobalList();
      corrupted := memoryInGlobalList > allocatedFromOs;
      freed := [];
      while poolList != []
        invariant freed + poolList == old(poolList) && View() == old(View()).(poolList := poolList)
        decreases |poolList|
      {
        freed := freed + [poolList[0]];
        poolList := poolList[1..];
      }
      leak := allocatedFromGlobalPool != 0;
      if forall v :: 0 <= v < |workers| ==> workers[v].retired {
        LeakIffLive(old(View()));
      }
    }
  }
}
