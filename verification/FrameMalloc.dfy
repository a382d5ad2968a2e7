/**
 The frame allocator: a bump-allocated global pool with one global free list per block size,
 and per-worker caches that are refilled in batches and trimmed when their potential
 exceeds a limit.  This module gives the allocator's state as a value, its operations as
 functions, and what every sequence of operations keeps.  `FrameAllocator` has the code.
*/
module FrameMalloc {

  const NBUCKETS: nat := 6
  const MAX_SIZE: nat := 2048
  const CHUNK: nat := 32 * 1024 - 128
  const BATCH_SIZE: nat := 8000
  const POTENTIAL_LIMIT: nat := 4 * BATCH_SIZE

  /** Bytes of a block in a bucket. */
  function BucketSize(b: nat): nat
    requires b < NBUCKETS
  {
    [64, 128, 256, 512, 1024, 2048][b]
  }

  /** A worker's free lists, youngest block first, and potentials.  After cleanup the worker
      still points at its old lists; it is retired and may not use them. */
  datatype Cache = Cache(freeList: seq<seq<int>>, potential: seq<nat>, retired: bool)

  /** Who has a block that was ever carved out of a chunk. */
  datatype Place = Live | Cached(w: nat) | Pooled

  datatype Block = Block(bucket: nat, place: Place)

  datatype State = State(
    poolBegin: int, poolEnd: int,
    poolList: seq<int>,            // chunks obtained from the OS, youngest first
    globalFree: seq<seq<int>>,
    fromOs: int, fromPool: int, wasted: int,
    caches: seq<Cache>,
    blocks: map<int, Block>        // for specification: every block by address
  )

  function EmptyLists(): seq<seq<int>> {
    [[], [], [], [], [], []]
  }

  function NewCaches(nworkers: nat): (cs: seq<Cache>)
    ensures |cs| == nworkers && forall w :: 0 <= w < nworkers ==> cs[w] == Cache(EmptyLists(), [0, 0, 0, 0, 0, 0], false)
  {
    seq(nworkers, _ => Cache(EmptyLists(), [0, 0, 0, 0, 0, 0], false))
  }

  function Init(nworkers: nat): State {
    State(0, 0, [], EmptyLists(), 0, 0, 0, NewCaches(nworkers), map[])
  }

  // ---------------------------------------------------------------- operations

  /** The operating system hands out a chunk that overlaps none of those it gave before. */
  ghost predicate OsOk(os: seq<int> -> int) {
    forall cs: seq<int>, i :: 0 <= i < |cs| ==> Apart(os(cs), cs[i])
  }

  predicate Apart(c: int, d: int) {
    c + CHUNK <= d || d + CHUNK <= c
  }

  function Extend(s: State, os: seq<int> -> int): State {
    var c := os(s.poolList);
    s.(poolBegin := c, poolEnd := c + CHUNK, fromOs := s.fromOs + CHUNK, poolList := [c] + s.poolList)
  }

  predicate Active(s: State, w: nat) {
    && |s.globalFree| == NBUCKETS && w < |s.caches|
    && |s.caches[w].freeList| == NBUCKETS && |s.caches[w].potential| == NBUCKETS && !s.caches[w].retired
  }

  predicate Usable(s: State, w: nat, b: nat) {
    Active(s, w) && b < NBUCKETS
  }

  /** A pooled block if there is one; else the next bytes of the pool, extended when too short. */
  function GlobalAlloc(s: State, b: nat, os: seq<int> -> int): (State, int)
    requires |s.globalFree| == NBUCKETS && b < NBUCKETS
  {
    var size := BucketSize(b);
    var s1 := s.(fromPool := s.fromPool + size);
    if s.globalFree[b] != [] then
      (s1.(globalFree := s.globalFree[b := s.globalFree[b][1..]]), s.globalFree[b][0])
    else
      var s2 := if s.poolBegin + size > s.poolEnd then Extend(s1.(wasted := s.wasted + (s.poolEnd - s.poolBegin)), os) else s1;
      (s2.(poolBegin := s2.poolBegin + size), s2.poolBegin)
  }

  function GlobalFree(s: State, p: int, b: nat): State
    requires |s.globalFree| == NBUCKETS && b < NBUCKETS
  {
    s.(fromPool := s.fromPool - BucketSize(b), globalFree := s.globalFree[b := [p] + s.globalFree[b]],
       blocks := s.blocks[p := Block(b, Pooled)])
  }

  function SetList(s: State, w: nat, b: nat, list: seq<int>, potential: nat): State
    requires Usable(s, w, b)
  {
    var c := s.caches[w];
    s.(caches := s.caches[w := c.(freeList := c.freeList[b := list], potential := c.potential[b := potential])])
  }

  function List(s: State, w: nat, b: nat): seq<int>
    requires Usable(s, w, b)
  {
    s.caches[w].freeList[b]
  }

  function Potential(s: State, w: nat, b: nat): nat
    requires Usable(s, w, b)
  {
    s.caches[w].potential[b]
  }

  /** One turn of the batch loop: a block from the global pool onto the worker's list. */
  function Refill(s: State, w: nat, b: nat, os: seq<int> -> int): (t: State)
    requires Usable(s, w, b)
    ensures Usable(t, w, b) && |List(t, w, b)| == |List(s, w, b)| + 1
  {
    var (s1, mem) := GlobalAlloc(s, b, os);
    SetList(s1, w, b, [mem] + List(s, w, b), Potential(s, w, b) + BucketSize(b)).(
      blocks := s.blocks[mem := Block(b, Cached(w))])
  }

  function RefillN(s: State, w: nat, b: nat, n: nat, os: seq<int> -> int): (t: State)
    requires Usable(s, w, b)
    ensures Usable(t, w, b) && |List(t, w, b)| == |List(s, w, b)| + n
  {
    if n == 0 then s else Refill(RefillN(s, w, b, n - 1, os), w, b, os)
  }

  /** Blocks in one batch: enough to reach BATCH_SIZE bytes. */
  function BatchCount(b: nat): nat
    requires b < NBUCKETS
  {
    (BATCH_SIZE + BucketSize(b) - 1) / BucketSize(b)
  }

  /** The state in which the next allocation pops: the list is refilled when it is empty. */
  function Stocked(s: State, w: nat, b: nat, os: seq<int> -> int): (t: State)
    requires Usable(s, w, b)
    ensures Usable(t, w, b) && List(t, w, b) != []
  {
    if List(s, w, b) == [] then RefillN(s, w, b, BatchCount(b), os) else s
  }

  /** Allocate: pop the worker's list, after refilling it when it is empty. */
  function Malloc(s: State, w: nat, b: nat, os: seq<int> -> int): (State, int)
    requires Usable(s, w, b)
  {
    Take(Stocked(s, w, b, os), w, b)
  }

  function Take(s: State, w: nat, b: nat): (State, int)
    requires Usable(s, w, b) && List(s, w, b) != []
  {
    var list := List(s, w, b);
    (SetList(s, w, b, list[1..], Potential(s, w, b)).(blocks := s.blocks[list[0] := Block(b, Live)]), list[0])
  }

  /** Free: push on the list, raise the potential, and trim when the potential passes the limit. */
  function Free(s: State, w: nat, p: int, b: nat): State
    requires Usable(s, w, b)
  {
    var t := Put(s, w, p, b);
    if Potential(t, w, b) > POTENTIAL_LIMIT then Trim(t, w, b) else t
  }

  function Put(s: State, w: nat, p: int, b: nat): (t: State)
    requires Usable(s, w, b)
    ensures Usable(t, w, b)
  {
    SetList(s, w, b, [p] + List(s, w, b), Potential(s, w, b) + BucketSize(b)).(
      blocks := s.blocks[p := Block(b, Cached(w))])
  }

  /** How many blocks the garbage collection counts: half the potential's worth, if there are that many. */
  function KeepCount(len: nat, potential: nat, size: nat): nat
    requires size > 0
  {
    var half := (potential + 2 * size - 1) / (2 * size);
    if len < half then len else half
  }

  /** The new potential is what was counted; one block more than that stays cached. */
  function Trim(s: State, w: nat, b: nat): State
    requires Usable(s, w, b)
  {
    var n := KeepCount(|List(s, w, b)|, Potential(s, w, b), BucketSize(b));
    var t := SetList(s, w, b, List(s, w, b), n * BucketSize(b));
    ReturnAfter(t, w, b, n + 1)
  }

  /** Give every block after the first `keep` back to the global pool. */
  function ReturnAfter(s: State, w: nat, b: nat, keep: nat): (t: State)
    requires Usable(s, w, b)
    ensures Usable(t, w, b)
    decreases |List(s, w, b)|
  {
    if |List(s, w, b)| <= keep then s else ReturnAfter(Return(s, w, b, keep), w, b, keep)
  }

  function Return(s: State, w: nat, b: nat, keep: nat): (t: State)
    requires Usable(s, w, b) && keep < |List(s, w, b)|
    ensures Usable(t, w, b) && |List(t, w, b)| == |List(s, w, b)| - 1
  {
    var list := List(s, w, b);
    SetList(GlobalFree(s, list[keep], b), w, b, list[..keep] + list[keep + 1..], Potential(s, w, b))
  }

  // ---------------------------------------------------------------- the invariant

  /** Bytes on six free lists. */
  function Bytes(lists: seq<seq<int>>): int
    requires |lists| == NBUCKETS
  {
    64 * |lists[0]| + 128 * |lists[1]| + 256 * |lists[2]| + 512 * |lists[3]| + 1024 * |lists[4]| + 2048 * |lists[5]|
  }

  ghost predicate WellFormed(s: State) {
    && |s.globalFree| == NBUCKETS
    && forall w :: 0 <= w < |s.caches| ==> |s.caches[w].freeList| == NBUCKETS && |s.caches[w].potential| == NBUCKETS
  }

  function CacheBytes(c: Cache): int
    requires |c.freeList| == NBUCKETS
  {
    if c.retired then 0 else Bytes(c.freeList)
  }

  ghost function CachedBytes(caches: seq<Cache>): int
    requires forall w :: 0 <= w < |caches| ==> |caches[w].freeList| == NBUCKETS
  {
    if caches == [] then 0 else CachedBytes(caches[..|caches| - 1]) + CacheBytes(caches[|caches| - 1])
  }

  ghost function LiveIn(blocks: map<int, Block>, b: nat): set<int> {
    set a | a in blocks && blocks[a] == Block(b, Live)
  }

  ghost function LiveBytes(blocks: map<int, Block>): int {
    64 * |LiveIn(blocks, 0)| + 128 * |LiveIn(blocks, 1)| + 256 * |LiveIn(blocks, 2)|
    + 512 * |LiveIn(blocks, 3)| + 1024 * |LiveIn(blocks, 4)| + 2048 * |LiveIn(blocks, 5)|
  }

  /** Every byte obtained from the OS is accounted for, twice over. */
  ghost predicate Accounted(s: State)
    requires WellFormed(s)
  {
    && s.fromOs == |s.poolList| * CHUNK
    && s.fromOs == s.wasted + (s.poolEnd - s.poolBegin) + Bytes(s.globalFree) + s.fromPool
    && s.fromPool == CachedBytes(s.caches) + LiveBytes(s.blocks)
    && 0 <= s.wasted <= |s.poolList| * (MAX_SIZE - 1)
  }

  /** A cached bucket: its bytes are covered by its potential and one block, and a potential
      beyond the limit goes with less than a batch. */
  ghost predicate Bounded(len: nat, potential: nat, size: nat) {
    && len * size <= potential + size
    && (potential > POTENTIAL_LIMIT ==> len * size < BATCH_SIZE)
  }

  ghost predicate AllBounded(s: State)
    requires WellFormed(s)
  {
    forall w, b :: 0 <= w < |s.caches| && 0 <= b < NBUCKETS && !s.caches[w].retired ==>
      Bounded(|s.caches[w].freeList[b]|, s.caches[w].potential[b], BucketSize(b))
  }

  /** Where blocks lie. */
  ghost predicate Disjoint(s: State) {
    && (forall a :: a in s.blocks ==> s.blocks[a].bucket < NBUCKETS)
    && (forall a, d :: a in s.blocks && d in s.blocks && a < d ==> a + BucketSize(s.blocks[a].bucket) <= d)
    && (forall a :: a in s.blocks ==> InChunk(s.poolList, a, BucketSize(s.blocks[a].bucket)))
    && (forall a :: a in s.blocks ==> a + BucketSize(s.blocks[a].bucket) <= s.poolBegin || s.poolEnd <= a)
    && (forall i, j :: 0 <= i < j < |s.poolList| ==> Apart(s.poolList[i], s.poolList[j]))
    && s.poolBegin <= s.poolEnd
    && (s.poolList == [] ==> s.poolBegin == s.poolEnd)
    && (s.poolList != [] ==> s.poolEnd == s.poolList[0] + CHUNK && s.poolList[0] <= s.poolBegin)
  }

  ghost predicate InChunk(chunks: seq<int>, a: int, size: nat) {
    exists i :: 0 <= i < |chunks| && chunks[i] <= a && a + size <= chunks[i] + CHUNK
  }

  /** A list holds exactly the blocks of its bucket that are in its place, each once. */
  ghost predicate Lists(list: seq<int>, blocks: map<int, Block>, block: Block) {
    && (forall i, j :: 0 <= i < j < |list| ==> list[i] != list[j])
    && (forall a :: a in list ==> a in blocks && blocks[a] == block)
    && (forall a :: a in blocks && blocks[a] == block ==> a in list)
  }

  ghost predicate Placed(s: State)
    requires WellFormed(s)
  {
    && (forall b :: 0 <= b < NBUCKETS ==> Lists(s.globalFree[b], s.blocks, Block(b, Pooled)))
    && (forall w, b :: 0 <= w < |s.caches| && 0 <= b < NBUCKETS && !s.caches[w].retired ==>
          Lists(s.caches[w].freeList[b], s.blocks, Block(b, Cached(w))))
    && (forall a :: a in s.blocks && s.blocks[a].place.Cached? ==>
          s.blocks[a].place.w < |s.caches| && !s.caches[s.blocks[a].place.w].retired)
  }

  ghost predicate Inv(s: State) {
    WellFormed(s) && Accounted(s) && AllBounded(s) && Disjoint(s) && Placed(s)
  }

  // ---------------------------------------------------------------- accounting

  lemma {:induction false} CachedUpdate(caches: seq<Cache>, w: nat, c: Cache)
    requires forall v :: 0 <= v < |caches| ==> |caches[v].freeList| == NBUCKETS
    requires w < |caches| && |c.freeList| == NBUCKETS
    ensures CachedBytes(caches[w := c]) == CachedBytes(caches) - CacheBytes(caches[w]) + CacheBytes(c)
    decreases |caches|
  {
    var last := |caches| - 1;
    if w == last {
      assert caches[w := c][..last] == caches[..last];
    } else {
      assert caches[w := c][..last] == caches[..last][w := c];
      CachedUpdate(caches[..last], w, c);
    }
  }

  /** Replacing one of six lists. */
  lemma BytesUpdate(lists: seq<seq<int>>, b: nat, list: seq<int>)
    requires |lists| == NBUCKETS && b < NBUCKETS
    ensures Bytes(lists[b := list]) == Bytes(lists) + BucketSize(b) * (|list| - |lists[b]|)
  {
  }

  /** The live blocks of one bucket when one block changes hands. */
  lemma LiveUpdate(blocks: map<int, Block>, a: int, block: Block, b: nat)
    ensures var was := a in blocks && blocks[a] == Block(b, Live);
      |LiveIn(blocks[a := block], b)| == |LiveIn(blocks, b)| - (if was then 1 else 0) + (if block == Block(b, Live) then 1 else 0)
  {
    var rest := LiveIn(blocks, b) - {a};
    assert LiveIn(blocks[a := block], b) == if block == Block(b, Live) then rest + {a} else rest;
    assert LiveIn(blocks, b) == if a in blocks && blocks[a] == Block(b, Live) then rest + {a} else rest;
  }

  /** Bytes a block contributes to the live ones. */
  ghost function LiveWeight(block: Block): int {
    if block.place == Live && block.bucket < NBUCKETS then BucketSize(block.bucket) else 0
  }

  lemma LiveBytesUpdate(blocks: map<int, Block>, a: int, block: Block)
    ensures LiveBytes(blocks[a := block])
         == LiveBytes(blocks) - (if a in blocks then LiveWeight(blocks[a]) else 0) + LiveWeight(block)
  {
    LiveUpdate(blocks, a, block, 0);
    LiveUpdate(blocks, a, block, 1);
    LiveUpdate(blocks, a, block, 2);
    LiveUpdate(blocks, a, block, 3);
    LiveUpdate(blocks, a, block, 4);
    LiveUpdate(blocks, a, block, 5);
  }

  lemma SetListBytes(s: State, w: nat, b: nat, list: seq<int>, potential: nat)
    requires WellFormed(s) && Usable(s, w, b)
    ensures WellFormed(SetList(s, w, b, list, potential))
    ensures CachedBytes(SetList(s, w, b, list, potential).caches)
         == CachedBytes(s.caches) + BucketSize(b) * (|list| - |List(s, w, b)|)
  {
    var c := s.caches[w];
    CachedUpdate(s.caches, w, c.(freeList := c.freeList[b := list], potential := c.potential[b := potential]));
    BytesUpdate(c.freeList, b, list);
  }

  /** The global pool pays for the block with pooled bytes or with bytes of the chunk. */
  lemma GlobalAllocAccounted(s: State, b: nat, os: seq<int> -> int)
    requires WellFormed(s) && b < NBUCKETS && Accounted(s) && s.poolBegin <= s.poolEnd
    ensures var t := GlobalAlloc(s, b, os).0;
      && WellFormed(t) && t.caches == s.caches && t.blocks == s.blocks
      && t.fromOs == |t.poolList| * CHUNK
      && t.fromOs == t.wasted + (t.poolEnd - t.poolBegin) + Bytes(t.globalFree) + t.fromPool
      && t.fromPool == s.fromPool + BucketSize(b)
      && 0 <= t.wasted <= |t.poolList| * (MAX_SIZE - 1)
  {
    if s.globalFree[b] != [] {
      BytesUpdate(s.globalFree, b, s.globalFree[b][1..]);
    }
  }

  lemma RefillAccounted(s: State, w: nat, b: nat, os: seq<int> -> int)
    requires WellFormed(s) && Usable(s, w, b) && Accounted(s) && s.poolBegin <= s.poolEnd
    requires var a := GlobalAlloc(s, b, os).1; a !in s.blocks || s.blocks[a].place != Live
    ensures WellFormed(Refill(s, w, b, os)) && Accounted(Refill(s, w, b, os))
  {
    hide GlobalAlloc, CachedBytes, LiveBytes, Bytes, BucketSize;
    GlobalAllocAccounted(s, b, os);
    var (s1, mem) := GlobalAlloc(s, b, os);
    SetListBytes(s1, w, b, [mem] + List(s, w, b), Potential(s, w, b) + BucketSize(b));
    LiveBytesUpdate(s.blocks, mem, Block(b, Cached(w)));
  }

  lemma TakeAccounted(s: State, w: nat, b: nat)
    requires WellFormed(s) && Usable(s, w, b) && Accounted(s) && List(s, w, b) != []
    requires List(s, w, b)[0] in s.blocks && s.blocks[List(s, w, b)[0]].place != Live
    ensures WellFormed(Take(s, w, b).0) && Accounted(Take(s, w, b).0)
  {
    hide CachedBytes, LiveBytes, Bytes;
    var list := List(s, w, b);
    SetListBytes(s, w, b, list[1..], Potential(s, w, b));
    LiveBytesUpdate(s.blocks, list[0], Block(b, Live));
    hide BucketSize;
  }

  lemma PutAccounted(s: State, w: nat, p: int, b: nat)
    requires WellFormed(s) && Usable(s, w, b) && Accounted(s) && p in s.blocks && s.blocks[p] == Block(b, Live)
    ensures WellFormed(Put(s, w, p, b)) && Accounted(Put(s, w, p, b))
  {
    hide CachedBytes, LiveBytes, Bytes;
    SetListBytes(s, w, b, [p] + List(s, w, b), Potential(s, w, b) + BucketSize(b));
    LiveBytesUpdate(s.blocks, p, Block(b, Cached(w)));
    hide BucketSize;
  }

  lemma ReturnAccounted(s: State, w: nat, b: nat, keep: nat)
    requires WellFormed(s) && Usable(s, w, b) && Accounted(s) && keep < |List(s, w, b)|
    requires var a := List(s, w, b)[keep]; a in s.blocks && s.blocks[a].place != Live
    ensures WellFormed(Return(s, w, b, keep)) && Accounted(Return(s, w, b, keep))
  {
    var list := List(s, w, b);
    var s1 := GlobalFree(s, list[keep], b);
    SetListBytes(s1, w, b, list[..keep] + list[keep + 1..], Potential(s, w, b));
    BytesUpdate(s.globalFree, b, [list[keep]] + s.globalFree[b]);
    LiveBytesUpdate(s.blocks, list[keep], Block(b, Pooled));
  }

  // ---------------------------------------------------------------- places

  lemma ListsPush(list: seq<int>, blocks: map<int, Block>, a: int, block: Block)
    requires Lists(list, blocks, block) && (a !in blocks || blocks[a] != block)
    ensures Lists([a] + list, blocks[a := block], block)
  {
  }

  lemma ListsDrop(list: seq<int>, blocks: map<int, Block>, k: nat, block: Block, other: Block)
    requires Lists(list, blocks, block) && k < |list| && other != block
    ensures Lists(list[..k] + list[k + 1..], blocks[list[k] := other], block)
  {
    var rest := list[..k] + list[k + 1..];
    forall a | a in blocks[list[k] := other] && blocks[list[k] := other][a] == block ensures a in rest {
      var i :| 0 <= i < |list| && list[i] == a;
      assert if i < k then rest[i] == a else rest[i - 1] == a;
    }
    forall a | a in rest ensures a in list && a != list[k] {
      var i :| 0 <= i < |rest| && rest[i] == a;
      assert a == if i < k then list[i] else list[i + 1];
    }
  }

  lemma ListsOther(list: seq<int>, blocks: map<int, Block>, a: int, block: Block, other: Block)
    requires Lists(list, blocks, block) && (a !in blocks || blocks[a] != block) && other != block
    ensures Lists(list, blocks[a := other], block)
  {
  }

  /** `t` differs from `s` in who has block `a`, in the global list of bucket `g` and in worker
      `w`'s list of bucket `b`; a list changes only when the block leaves or enters it. */
  lemma PlacedMove(s: State, t: State, a: int, to: Block, w: nat, b: nat, g: nat)
    requires WellFormed(s) && WellFormed(t) && Placed(s) && t.blocks == s.blocks[a := to]
    requires g < NBUCKETS && Usable(s, w, b) && Usable(t, w, b) && |t.caches| == |s.caches|
    requires forall v :: 0 <= v < |s.caches| && v != w ==> t.caches[v] == s.caches[v]
    requires forall c :: 0 <= c < NBUCKETS && c != b ==> t.caches[w].freeList[c] == s.caches[w].freeList[c]
    requires forall c :: 0 <= c < NBUCKETS && c != g ==> t.globalFree[c] == s.globalFree[c]
    requires Lists(t.globalFree[g], t.blocks, Block(g, Pooled))
    requires Lists(List(t, w, b), t.blocks, Block(b, Cached(w)))
    requires to == Block(b, Cached(w)) || to == Block(g, Pooled) || to == Block(b, Live)
    requires a in s.blocks ==> s.blocks[a] in {Block(b, Cached(w)), Block(g, Pooled), Block(b, Live)}
    ensures Placed(t)
  {
    forall c | 0 <= c < NBUCKETS && c != g ensures Lists(t.globalFree[c], t.blocks, Block(c, Pooled)) {
      ListsOther(s.globalFree[c], s.blocks, a, Block(c, Pooled), to);
    }
    forall v, c | 0 <= v < |s.caches| && 0 <= c < NBUCKETS && !(v == w && c == b) && !t.caches[v].retired
      ensures Lists(t.caches[v].freeList[c], t.blocks, Block(c, Cached(v)))
    {
      ListsOther(s.caches[v].freeList[c], s.blocks, a, Block(c, Cached(v)), to);
    }
  }

  lemma TakePlaced(s: State, w: nat, b: nat)
    requires WellFormed(s) && Usable(s, w, b) && Placed(s) && List(s, w, b) != []
    ensures var (t, a) := Take(s, w, b); WellFormed(t) && Placed(t) && a in s.blocks && s.blocks[a] == Block(b, Cached(w))
  {
    var (t, a) := Take(s, w, b);
    var list := List(s, w, b);
    ListsDrop(list, s.blocks, 0, Block(b, Cached(w)), Block(b, Live));
    assert list[..0] + list[1..] == list[1..];
    ListsOther(s.globalFree[b], s.blocks, a, Block(b, Pooled), Block(b, Live));
    PlacedMove(s, t, a, Block(b, Live), w, b, b);
  }

  lemma PutPlaced(s: State, w: nat, p: int, b: nat)
    requires WellFormed(s) && Usable(s, w, b) && Placed(s) && p in s.blocks && s.blocks[p] == Block(b, Live)
    ensures WellFormed(Put(s, w, p, b)) && Placed(Put(s, w, p, b))
  {
    var t := Put(s, w, p, b);
    ListsPush(List(s, w, b), s.blocks, p, Block(b, Cached(w)));
    ListsOther(s.globalFree[b], s.blocks, p, Block(b, Pooled), Block(b, Cached(w)));
    PlacedMove(s, t, p, Block(b, Cached(w)), w, b, b);
  }

  lemma ReturnPlaced(s: State, w: nat, b: nat, keep: nat)
    requires WellFormed(s) && Usable(s, w, b) && Placed(s) && keep < |List(s, w, b)|
    ensures var a := List(s, w, b)[keep]; a in s.blocks && s.blocks[a] == Block(b, Cached(w))
    ensures WellFormed(Return(s, w, b, keep)) && Placed(Return(s, w, b, keep))
  {
    var t := Return(s, w, b, keep);
    var list := List(s, w, b);
    ListsDrop(list, s.blocks, keep, Block(b, Cached(w)), Block(b, Pooled));
    ListsPush(s.globalFree[b], s.blocks, list[keep], Block(b, Pooled));
    PlacedMove(s, t, list[keep], Block(b, Pooled), w, b, b);
  }

  /** A block from the global pool was pooled, or lies where no block has been before. */
  lemma GlobalAllocSource(s: State, b: nat, os: seq<int> -> int)
    requires WellFormed(s) && Placed(s) && Disjoint(s) && OsOk(os) && b < NBUCKETS
    ensures var (t, a) := GlobalAlloc(s, b, os);
      if s.globalFree[b] != [] then
        && a in s.blocks && s.blocks[a] == Block(b, Pooled) && t.globalFree == s.globalFree[b := s.globalFree[b][1..]]
        && a == s.globalFree[b][0] && t.poolBegin == s.poolBegin && t.poolEnd == s.poolEnd && t.poolList == s.poolList
      else
        && t.globalFree == s.globalFree && a + BucketSize(b) == t.poolBegin <= t.poolEnd
        && t.poolList != [] && t.poolEnd == t.poolList[0] + CHUNK && t.poolList[0] <= a
        && (t.poolList == s.poolList || (t.poolList == [a] + s.poolList && forall i :: 0 <= i < |s.poolList| ==> Apart(a, s.poolList[i])))
        && (t.poolList == s.poolList ==> a == s.poolBegin && t.poolEnd == s.poolEnd)
  {
    if s.globalFree[b] != [] {
      assert s.globalFree[b][0] in s.globalFree[b];
    }
  }

  /** Freshly carved bytes overlap no block: blocks lie in older chunks or before the pool pointer. */
  lemma CarvedIsFresh(s: State, a: int, b: nat, t: State)
    requires Disjoint(s) && b < NBUCKETS && a + BucketSize(b) == t.poolBegin <= t.poolEnd
    requires t.poolList != [] && t.poolEnd == t.poolList[0] + CHUNK && t.poolList[0] <= a
    requires t.poolList == s.poolList || (t.poolList == [a] + s.poolList && forall i :: 0 <= i < |s.poolList| ==> Apart(a, s.poolList[i]))
    requires t.poolList == s.poolList ==> a == s.poolBegin && t.poolEnd == s.poolEnd
    ensures forall d :: d in s.blocks ==>
      d + BucketSize(s.blocks[d].bucket) <= a || (a + BucketSize(b) <= d && t.poolEnd <= d)
  {
    forall d | d in s.blocks ensures d + BucketSize(s.blocks[d].bucket) <= a || (a + BucketSize(b) <= d && t.poolEnd <= d) {
      if t.poolList != s.poolList {
        var i :| 0 <= i < |s.poolList| && s.poolList[i] <= d && d + BucketSize(s.blocks[d].bucket) <= s.poolList[i] + CHUNK;
        assert Apart(a, s.poolList[i]);
      }
    }
  }

  lemma RefillDisjoint(s: State, w: nat, b: nat, os: seq<int> -> int)
    requires WellFormed(s) && Usable(s, w, b) && Placed(s) && Disjoint(s) && OsOk(os)
    ensures Disjoint(Refill(s, w, b, os))
  {
    hide GlobalAlloc, Placed, OsOk;
    GlobalAllocSource(s, b, os);
    var (s1, a) := GlobalAlloc(s, b, os);
    var t := Refill(s, w, b, os);
    assert t.poolBegin == s1.poolBegin && t.poolEnd == s1.poolEnd && t.poolList == s1.poolList;
    assert t.blocks == s.blocks[a := Block(b, Cached(w))];
    if s.globalFree[b] == [] {
      hide Refill, WellFormed, Usable, Disjoint;
      CarvedDisjoint(s, t, s1, a, b, Cached(w));
    }
  }

  /** A block carved from the pool. */
  lemma CarvedDisjoint(s: State, t: State, s1: State, a: int, b: nat, place: Place)
    requires Disjoint(s) && b < NBUCKETS && a + BucketSize(b) == s1.poolBegin <= s1.poolEnd
    requires s1.poolList != [] && s1.poolEnd == s1.poolList[0] + CHUNK && s1.poolList[0] <= a
    requires s1.poolList == s.poolList || (s1.poolList == [a] + s.poolList && forall i :: 0 <= i < |s.poolList| ==> Apart(a, s.poolList[i]))
    requires s1.poolList == s.poolList ==> a == s.poolBegin && s1.poolEnd == s.poolEnd
    requires t.poolBegin == s1.poolBegin && t.poolEnd == s1.poolEnd && t.poolList == s1.poolList && t.blocks == s.blocks[a := Block(b, place)]
    ensures Disjoint(t)
  {
    CarvedIsFresh(s, a, b, s1);
    CarvedChunks(s, t, a, b);
    hide BucketSize, InChunk;
  }

  lemma CarvedChunks(s: State, t: State, a: int, b: nat)
    requires Disjoint(s) && b < NBUCKETS && a + BucketSize(b) <= t.poolEnd
    requires t.poolList != [] && t.poolEnd == t.poolList[0] + CHUNK && t.poolList[0] <= a
    requires t.poolList == s.poolList || t.poolList == [a] + s.poolList
    ensures forall d :: d in s.blocks ==> InChunk(t.poolList, d, BucketSize(s.blocks[d].bucket))
    ensures InChunk(t.poolList, a, BucketSize(b))
  {
    forall d | d in s.blocks ensures InChunk(t.poolList, d, BucketSize(s.blocks[d].bucket)) {
      var i :| 0 <= i < |s.poolList| && s.poolList[i] <= d && d + BucketSize(s.blocks[d].bucket) <= s.poolList[i] + CHUNK;
      var j := i + |t.poolList| - |s.poolList|;
      assert t.poolList[j] == s.poolList[i];
    }
  }

  lemma RefillPlaced(s: State, w: nat, b: nat, os: seq<int> -> int)
    requires WellFormed(s) && Usable(s, w, b) && Placed(s) && Disjoint(s) && OsOk(os)
    ensures WellFormed(Refill(s, w, b, os)) && Placed(Refill(s, w, b, os))
    ensures var a := GlobalAlloc(s, b, os).1; a !in s.blocks || s.blocks[a] == Block(b, Pooled)
  {
    hide Disjoint, OsOk;
    GlobalAllocSource(s, b, os);
    var (s1, a) := GlobalAlloc(s, b, os);
    var t := Refill(s, w, b, os);
    if s.globalFree[b] == [] {
      FreshAddress(s, b, os);
      ListsOther(s.globalFree[b], s.blocks, a, Block(b, Pooled), Block(b, Cached(w)));
    } else {
      var g := s.globalFree[b];
      ListsDrop(g, s.blocks, 0, Block(b, Pooled), Block(b, Cached(w)));
      assert g[..0] + g[1..] == g[1..];
    }
    ListsPush(List(s, w, b), s.blocks, a, Block(b, Cached(w)));
    PlacedMove(s, t, a, Block(b, Cached(w)), w, b, b);
  }

  lemma FreshAddress(s: State, b: nat, os: seq<int> -> int)
    requires WellFormed(s) && Placed(s) && Disjoint(s) && OsOk(os) && b < NBUCKETS && s.globalFree[b] == []
    ensures GlobalAlloc(s, b, os).1 !in s.blocks
  {
    hide GlobalAlloc;
    GlobalAllocSource(s, b, os);
    var (s1, a) := GlobalAlloc(s, b, os);
    CarvedIsFresh(s, a, b, s1);
  }

  // ---------------------------------------------------------------- potentials

  ghost predicate Core(s: State) {
    WellFormed(s) && Accounted(s) && Disjoint(s) && Placed(s)
  }

  /** Only the lists of worker `w` in bucket `b` may differ between `s` and `t`. */
  ghost predicate SameElsewhere(s: State, t: State, w: nat, b: nat)
    requires WellFormed(s) && WellFormed(t)
  {
    && |t.caches| == |s.caches|
    && (forall v :: 0 <= v < |s.caches| ==> t.caches[v].retired == s.caches[v].retired)
    && (forall v, c :: 0 <= v < |s.caches| && 0 <= c < NBUCKETS && !(v == w && c == b) ==>
          t.caches[v].freeList[c] == s.caches[v].freeList[c] && t.caches[v].potential[c] == s.caches[v].potential[c])
  }

  lemma RefillCore(s: State, w: nat, b: nat, os: seq<int> -> int)
    requires Core(s) && Usable(s, w, b) && OsOk(os)
    ensures var t := Refill(s, w, b, os);
      && Core(t) && SameElsewhere(s, t, w, b)
      && |List(t, w, b)| == |List(s, w, b)| + 1 && Potential(t, w, b) == Potential(s, w, b) + BucketSize(b)
  {
    hide Accounted, Disjoint, Placed;
    RefillPlaced(s, w, b, os);
    RefillDisjoint(s, w, b, os);
    assert s.poolBegin <= s.poolEnd by { PoolOrder(s); }
    RefillAccounted(s, w, b, os);
  }

  lemma PoolOrder(s: State)
    requires Disjoint(s)
    ensures s.poolBegin <= s.poolEnd
  {
  }

  lemma {:induction false} RefillNCore(s: State, w: nat, b: nat, n: nat, os: seq<int> -> int)
    requires Core(s) && Usable(s, w, b) && OsOk(os)
    ensures var t := RefillN(s, w, b, n, os);
      && Core(t) && SameElsewhere(s, t, w, b)
      && |List(t, w, b)| == |List(s, w, b)| + n && Potential(t, w, b) == Potential(s, w, b) + n * BucketSize(b)
  {
    hide Core, OsOk, Refill;
    if n > 0 {
      RefillNCore(s, w, b, n - 1, os);
      RefillCore(RefillN(s, w, b, n - 1, os), w, b, os);
    }
  }

  lemma DisjointMove(s: State, t: State, a: int, to: Block)
    requires Disjoint(s) && a in s.blocks && s.blocks[a].bucket == to.bucket && t.blocks == s.blocks[a := to]
    requires t.poolBegin == s.poolBegin && t.poolEnd == s.poolEnd && t.poolList == s.poolList
    ensures Disjoint(t)
  {
  }

  lemma TakeCore(s: State, w: nat, b: nat)
    requires Core(s) && Usable(s, w, b) && List(s, w, b) != []
    ensures var (t, a) := Take(s, w, b);
      && Core(t) && SameElsewhere(s, t, w, b) && Usable(t, w, b)
      && List(t, w, b) == List(s, w, b)[1..] && Potential(t, w, b) == Potential(s, w, b)
      && a !in LiveIn(s.blocks, b) && t.blocks == s.blocks[a := Block(b, Live)]
  {
    hide Accounted, Disjoint, Placed;
    TakePlaced(s, w, b);
    TakeAccounted(s, w, b);
    DisjointMove(s, Take(s, w, b).0, List(s, w, b)[0], Block(b, Live));
  }

  lemma PutCore(s: State, w: nat, p: int, b: nat)
    requires Core(s) && Usable(s, w, b) && p in s.blocks && s.blocks[p] == Block(b, Live)
    ensures var t := Put(s, w, p, b); Core(t) && SameElsewhere(s, t, w, b)
  {
    hide Accounted, Disjoint, Placed;
    PutPlaced(s, w, p, b);
    PutAccounted(s, w, p, b);
    DisjointMove(s, Put(s, w, p, b), p, Block(b, Cached(w)));
  }

  lemma ReturnCore(s: State, w: nat, b: nat, keep: nat)
    requires Core(s) && Usable(s, w, b) && keep < |List(s, w, b)|
    ensures var t := Return(s, w, b, keep);
      Core(t) && SameElsewhere(s, t, w, b) && Potential(t, w, b) == Potential(s, w, b)
  {
    hide Accounted, Disjoint, Placed;
    ReturnPlaced(s, w, b, keep);
    ReturnAccounted(s, w, b, keep);
    DisjointMove(s, Return(s, w, b, keep), List(s, w, b)[keep], Block(b, Pooled));
  }

  lemma {:induction false} ReturnAfterCore(s: State, w: nat, b: nat, keep: nat)
    requires Core(s) && Usable(s, w, b)
    ensures var t := ReturnAfter(s, w, b, keep);
      && Core(t) && SameElsewhere(s, t, w, b) && Potential(t, w, b) == Potential(s, w, b)
      && |List(t, w, b)| == if |List(s, w, b)| <= keep then |List(s, w, b)| else keep
    decreases |List(s, w, b)|
  {
    hide Core;
    if |List(s, w, b)| > keep {
      ReturnCore(s, w, b, keep);
      ReturnAfterCore(Return(s, w, b, keep), w, b, keep);
    }
  }

  lemma SetPotentialCore(s: State, w: nat, b: nat, potential: nat)
    requires Core(s) && Usable(s, w, b)
    ensures var t := SetList(s, w, b, List(s, w, b), potential);
      && Core(t) && SameElsewhere(s, t, w, b)
      && List(t, w, b) == List(s, w, b) && Potential(t, w, b) == potential
  {
    hide Accounted, Disjoint, Placed;
    var t := SetList(s, w, b, List(s, w, b), potential);
    SetListBytes(s, w, b, List(s, w, b), potential);
    assert s.caches[w].freeList[b := List(s, w, b)] == s.caches[w].freeList;
    SameListsCore(s, t);
  }

  lemma SameListsCore(s: State, t: State)
    requires Core(s) && WellFormed(t) && |t.caches| == |s.caches|
    requires forall v :: 0 <= v < |s.caches| ==> t.caches[v].freeList == s.caches[v].freeList && t.caches[v].retired == s.caches[v].retired
    requires CachedBytes(t.caches) == CachedBytes(s.caches)
    requires t == s.(caches := t.caches)
    ensures Core(t)
  {
  }

  // ---------------------------------------------------------------- the cache bound

  lemma BatchCountBound(b: nat)
    requires b < NBUCKETS
    ensures BATCH_SIZE <= BatchCount(b) * BucketSize(b) < BATCH_SIZE + BucketSize(b)
    ensures BatchCount(b) > 0
  {
  }

  /** Freeing keeps the bound, with or without trimming, and leaves the potential within the limit. */
  lemma FreeBound(len: nat, potential: nat, b: nat)
    requires b < NBUCKETS && Bounded(len, potential, BucketSize(b))
    ensures var size := BucketSize(b); var p := potential + size;
      if p > POTENTIAL_LIMIT then
        var n := KeepCount(len + 1, p, size);
        Bounded(if len + 1 <= n + 1 then len + 1 else n + 1, n * size, size) && n * size <= POTENTIAL_LIMIT
      else Bounded(len + 1, p, size)
  {
    var size := BucketSize(b);
    var p := potential + size;
    assert (len + 1) * size == len * size + size;
    if p > POTENTIAL_LIMIT {
      var half := (p + 2 * size - 1) / (2 * size);
      var n := KeepCount(len + 1, p, size);
      assert (n + 1) * size == n * size + size;
      MulMono(n, half, size);
      if n == len + 1 {
        if potential <= POTENTIAL_LIMIT {
          HalfBound(p, b);
        }
      } else {
        HalfBound(p, b);
        MulMono(n, len, size);
      }
    }
  }

  lemma MulMono(m: nat, n: nat, k: nat)
    requires m <= n
    ensures m * k <= n * k
  {
  }

  /** Half of a potential, rounded up to whole blocks. */
  lemma HalfBound(p: nat, b: nat)
    requires b < NBUCKETS
    ensures var size := BucketSize(b); var half := (p + 2 * size - 1) / (2 * size);
      p <= 2 * (half * size) < p + 2 * size
  {
  }

  lemma BoundedElsewhere(s: State, t: State, w: nat, b: nat)
    requires WellFormed(s) && WellFormed(t) && AllBounded(s) && SameElsewhere(s, t, w, b) && Usable(t, w, b)
    requires Bounded(|List(t, w, b)|, Potential(t, w, b), BucketSize(b))
    ensures AllBounded(t)
  {
  }

  // ---------------------------------------------------------------- whole operations

  /** The same blocks are in use in both states. */
  ghost predicate SameLive(s: State, t: State) {
    forall d :: d in t.blocks && t.blocks[d].place == Live <==> d in s.blocks && s.blocks[d].place == Live
  }

  lemma StockedCore(s: State, w: nat, b: nat, os: seq<int> -> int)
    requires Inv(s) && Usable(s, w, b) && OsOk(os)
    ensures var r := Stocked(s, w, b, os);
      && Core(r) && SameElsewhere(s, r, w, b) && List(r, w, b) != [] && SameLive(s, r)
      && Bounded(|List(r, w, b)| - 1, Potential(r, w, b), BucketSize(b))
  {
    hide Disjoint, Accounted, Placed, OsOk, RefillN, SameLive, Core;
    assert Core(s) by { InvCore(s); }
    if List(s, w, b) == [] {
      var n := BatchCount(b);
      RefillNCore(s, w, b, n, os);
      BatchCountBound(b);
      RefillNLive(s, w, b, n, os);
      assert (n - 1) * BucketSize(b) == n * BucketSize(b) - BucketSize(b);
    } else {
      OneBounded(s, w, b);
      var len := |List(s, w, b)|;
      assert (len - 1) * BucketSize(b) == len * BucketSize(b) - BucketSize(b);
      SameLiveSame(s);
    }
  }

  lemma InvCore(s: State)
    requires Inv(s)
    ensures Core(s)
  {
  }

  lemma SameLiveSame(s: State)
    ensures SameLive(s, s)
  {
  }

  /** Allocation succeeds, hands out a block nobody had, and keeps the invariant. */
  lemma MallocInv(s: State, w: nat, b: nat, os: seq<int> -> int)
    requires Inv(s) && Usable(s, w, b) && OsOk(os)
    ensures var (t, a) := Malloc(s, w, b, os);
      && Inv(t) && (a in s.blocks ==> s.blocks[a].place != Live) && a in t.blocks && t.blocks[a] == Block(b, Live)
      && forall d :: d != a ==> (d in t.blocks && t.blocks[d].place == Live <==> d in s.blocks && s.blocks[d].place == Live)
  {
    hide Disjoint, Accounted, Placed, OsOk, Bounded, AllBounded, Stocked;
    StockedCore(s, w, b, os);
    var r := Stocked(s, w, b, os);
    TakeCore(r, w, b);
    TakePlaced(r, w, b);
    var (t, a) := Take(r, w, b);
    SameTwice(s, r, t, w, b);
    BoundedElsewhere(s, t, w, b);
  }

  lemma SameTwice(s: State, r: State, t: State, w: nat, b: nat)
    requires WellFormed(s) && WellFormed(r) && WellFormed(t) && SameElsewhere(s, r, w, b) && SameElsewhere(r, t, w, b)
    ensures SameElsewhere(s, t, w, b)
  {
  }

  /** Refilling changes no live block. */
  lemma {:induction false} RefillNLive(s: State, w: nat, b: nat, n: nat, os: seq<int> -> int)
    requires Core(s) && Usable(s, w, b) && OsOk(os)
    ensures SameLive(s, RefillN(s, w, b, n, os))
  {
    hide Core, OsOk, Refill;
    if n > 0 {
      RefillNLive(s, w, b, n - 1, os);
      RefillNCore(s, w, b, n - 1, os);
      RefillLive(RefillN(s, w, b, n - 1, os), w, b, os);
    }
  }

  lemma RefillLive(s: State, w: nat, b: nat, os: seq<int> -> int)
    requires Core(s) && Usable(s, w, b) && OsOk(os)
    ensures SameLive(s, Refill(s, w, b, os))
  {
    hide Accounted, Disjoint, OsOk, Placed;
    RefillPlaced(s, w, b, os);
  }

  /** Freeing, by any worker, keeps the invariant and leaves the potential within the limit. */
  lemma FreeInv(s: State, w: nat, p: int, b: nat)
    requires Inv(s) && Usable(s, w, b) && p in s.blocks && s.blocks[p] == Block(b, Live)
    ensures Inv(Free(s, w, p, b)) && Usable(Free(s, w, p, b), w, b)
    ensures Potential(Free(s, w, p, b), w, b) <= POTENTIAL_LIMIT
  {
    hide Disjoint, Accounted, Placed, Bounded;
    PutCore(s, w, p, b);
    var r := Put(s, w, p, b);
    FreeBound(|List(s, w, b)|, Potential(s, w, b), b) by { OneBounded(s, w, b); }
    if Potential(r, w, b) > POTENTIAL_LIMIT {
      TrimCore(r, w, b);
      SameTwice(s, r, Trim(r, w, b), w, b);
    }
    BoundedElsewhere(s, Free(s, w, p, b), w, b);
  }

  lemma OneBounded(s: State, w: nat, b: nat)
    requires WellFormed(s) && AllBounded(s) && Usable(s, w, b)
    ensures Bounded(|List(s, w, b)|, Potential(s, w, b), BucketSize(b))
  {
  }

  lemma TrimCore(s: State, w: nat, b: nat)
    requires Core(s) && Usable(s, w, b)
    ensures var t := Trim(s, w, b); var n := KeepCount(|List(s, w, b)|, Potential(s, w, b), BucketSize(b));
      && Core(t) && SameElsewhere(s, t, w, b) && Usable(t, w, b) && Potential(t, w, b) == n * BucketSize(b)
      && |List(t, w, b)| == if |List(s, w, b)| <= n + 1 then |List(s, w, b)| else n + 1
  {
    hide Accounted, Disjoint, Placed;
    var n := KeepCount(|List(s, w, b)|, Potential(s, w, b), BucketSize(b));
    SetPotentialCore(s, w, b, n * BucketSize(b));
    var r := SetList(s, w, b, List(s, w, b), n * BucketSize(b));
    ReturnAfterCore(r, w, b, n + 1);
    SameTwice(s, r, Trim(s, w, b), w, b);
  }

  /** Worker cleanup: every bucket's list goes back to the global pool, block by block. */
  function ReturnAll(s: State, w: nat, b: nat): (t: State)
    requires b <= NBUCKETS && Active(s, w)
    ensures Active(t, w)
    decreases NBUCKETS - b
  {
    if b == NBUCKETS then s else ReturnAll(ReturnAfter(s, w, b, 0), w, b + 1)
  }

  /** The worker's own list pointers are left as they were; it must not use them again. */
  function Retire(s: State, w: nat): State
    requires Active(s, w)
  {
    var t := ReturnAll(s, w, 0);
    t.(caches := t.caches[w := Cache(s.caches[w].freeList, [0, 0, 0, 0, 0, 0], true)])
  }

  /** All but worker `w`'s lists are the same, and those from bucket `b` on are empty. */
  lemma {:induction false} ReturnAllCore(s: State, w: nat, b: nat)
    requires Core(s) && Active(s, w) && b <= NBUCKETS
    requires forall c :: 0 <= c < b ==> s.caches[w].freeList[c] == []
    ensures var t := ReturnAll(s, w, b);
      && Core(t) && |t.caches| == |s.caches| && (forall v :: 0 <= v < |s.caches| && v != w ==> t.caches[v] == s.caches[v])
      && (forall c :: 0 <= c < NBUCKETS ==> t.caches[w].freeList[c] == [])
      && SameLive(s, t)
    decreases NBUCKETS - b
  {
    hide Accounted, Disjoint, Placed;
    if b < NBUCKETS {
      ReturnAfterCore(s, w, b, 0);
      ReturnAfterElsewhere(s, w, b, 0);
      ReturnAllCore(ReturnAfter(s, w, b, 0), w, b + 1);
    }
  }

  lemma {:induction false} ReturnAfterElsewhere(s: State, w: nat, b: nat, keep: nat)
    requires Core(s) && Usable(s, w, b)
    ensures var t := ReturnAfter(s, w, b, keep);
      && |t.caches| == |s.caches| && (forall v :: 0 <= v < |s.caches| && v != w ==> t.caches[v] == s.caches[v])
      && SameLive(s, t)
    decreases |List(s, w, b)|
  {
    hide Accounted, Disjoint, Placed;
    if |List(s, w, b)| > keep {
      ReturnCore(s, w, b, keep);
      ReturnPlaced(s, w, b, keep) by { assert Placed(s); }
      ReturnAfterElsewhere(Return(s, w, b, keep), w, b, keep);
    }
  }

  /** A worker that leaves puts everything it cached back, and no live block changes hands. */
  lemma RetireInv(s: State, w: nat)
    requires Inv(s) && Active(s, w)
    ensures var t := Retire(s, w);
      && Inv(t) && |t.caches| == |s.caches| && t.caches[w].retired && SameLive(s, t)
      && (forall v :: 0 <= v < |s.caches| && v != w ==> t.caches[v] == s.caches[v])
  {
    hide Disjoint, Accounted, Placed, Bounded;
    ReturnAllCore(s, w, 0);
    var r := ReturnAll(s, w, 0);
    var t := Retire(s, w);
    RetireAccounted(r, t, w);
    RetirePlaced(r, t, w) by { assert Disjoint(r); BucketsInRange(r); }
    DisjointSame(r, t);
  }

  lemma BucketsInRange(s: State)
    requires Disjoint(s)
    ensures forall a :: a in s.blocks ==> s.blocks[a].bucket < NBUCKETS
  {
  }

  lemma RetireAccounted(r: State, t: State, w: nat)
    requires WellFormed(r) && WellFormed(t) && Accounted(r) && Active(r, w) && t == r.(caches := t.caches)
    requires |t.caches| == |r.caches| && t.caches == r.caches[w := t.caches[w]] && t.caches[w].retired
    requires forall c :: 0 <= c < NBUCKETS ==> r.caches[w].freeList[c] == []
    ensures Accounted(t)
  {
    CachedUpdate(r.caches, w, t.caches[w]);
    assert CacheBytes(r.caches[w]) == 0;
  }

  lemma DisjointSame(s: State, t: State)
    requires Disjoint(s) && t == s.(caches := t.caches)
    ensures Disjoint(t)
  {
  }

  lemma RetirePlaced(s: State, t: State, w: nat)
    requires WellFormed(s) && WellFormed(t) && Placed(s) && Active(s, w) && t == s.(caches := t.caches)
    requires |t.caches| == |s.caches| && t.caches[w].retired
    requires forall v :: 0 <= v < |s.caches| && v != w ==> t.caches[v] == s.caches[v]
    requires forall c :: 0 <= c < NBUCKETS ==> s.caches[w].freeList[c] == []
    requires forall a :: a in s.blocks ==> s.blocks[a].bucket < NBUCKETS
    ensures Placed(t)
  {
    forall a | a in s.blocks && s.blocks[a].place.Cached? ensures s.blocks[a].place.w != w {
      var c, v := s.blocks[a].bucket, s.blocks[a].place.w;
      assert Lists(s.caches[v].freeList[c], s.blocks, Block(c, Cached(v)));
      assert a in s.caches[v].freeList[c];
    }
  }

  // ---------------------------------------------------------------- what allocating and freeing do

  /** Only worker `w`'s list and potential of bucket `b`, the global list of that bucket, what was
      taken from the pool, and who has which block may differ. */
  ghost predicate SamePool(s: State, t: State, w: nat, b: nat)
    requires WellFormed(s) && WellFormed(t)
  {
    && SameElsewhere(s, t, w, b)
    && t == s.(caches := t.caches, blocks := t.blocks, globalFree := t.globalFree, fromPool := t.fromPool)
    && (forall c :: 0 <= c < NBUCKETS && c != b ==> t.globalFree[c] == s.globalFree[c])
  }

  /** The blocks of `moved` are now in `place`, and nobody else's block changed hands. */
  ghost predicate ChangedHands(before: map<int, Block>, after: map<int, Block>, moved: seq<int>, block: Block) {
    && (forall a :: a in moved ==> a in after && after[a] == block)
    && (forall a :: a !in moved ==> (a in after <==> a in before))
    && (forall a :: a !in moved && a in before && a in after ==> after[a] == before[a])
  }

  /** The blocks `gone` went onto the global list of bucket `b`, the first of them first. */
  ghost predicate GivenBack(s: State, t: State, w: nat, b: nat, gone: seq<int>)
    requires WellFormed(s) && WellFormed(t) && b < NBUCKETS
  {
    && SamePool(s, t, w, b)
    && t.fromPool == s.fromPool - |gone| * BucketSize(b)
    && |t.globalFree[b]| == |gone| + |s.globalFree[b]|
    && (forall i :: 0 <= i < |gone| ==> t.globalFree[b][|gone| - 1 - i] == gone[i])
    && t.globalFree[b][|gone|..] == s.globalFree[b]
    && ChangedHands(s.blocks, t.blocks, gone, Block(b, Pooled))
  }

  /** Of `len` blocks with potential `pot`, `kept` stay with potential `newPot`: as few as make up
      half of `pot` and one more, or all of them where there are not so many. */
  ghost predicate Halved(len: nat, pot: nat, kept: nat, newPot: nat, size: nat) {
    && kept <= len
    && ((kept == len && newPot == len * size) || (kept > 0 && newPot == (kept - 1) * size && 2 * newPot >= pot))
    && (newPot > 0 ==> 2 * (newPot - size) < pot)
  }

  /** What freeing block `p` does.  Within the limit the block heads the worker's list, all it
      had cached follows, and the global pool is not touched.  Above it, the first blocks of that
      list stay and the others go to the global list. */
  ghost predicate FreeDoes(s: State, t: State, w: nat, p: int, b: nat) {
    && WellFormed(s) && WellFormed(t) && Usable(s, w, b) && Usable(t, w, b)
    && var size, list, kept := BucketSize(b), [p] + List(s, w, b), |List(t, w, b)|;
    var pot, cached := Potential(s, w, b) + size, s.(blocks := s.blocks[p := Block(b, Cached(w))]);
    if pot <= POTENTIAL_LIMIT then
      List(t, w, b) == list && Potential(t, w, b) == pot && GivenBack(cached, t, w, b, [])
    else
      && List(t, w, b) <= list && Halved(|list|, pot, kept, Potential(t, w, b), size)
      && GivenBack(cached, t, w, b, list[kept..])
  }

  /** What trimming does: the first blocks stay, the others go to the global list. */
  ghost predicate TrimDoes(s: State, t: State, w: nat, b: nat) {
    && WellFormed(s) && WellFormed(t) && Usable(s, w, b) && Usable(t, w, b) && List(t, w, b) <= List(s, w, b)
    && Halved(|List(s, w, b)|, Potential(s, w, b), |List(t, w, b)|, Potential(t, w, b), BucketSize(b))
    && GivenBack(s, t, w, b, List(s, w, b)[|List(t, w, b)|..])
  }

  /** The blocks from index `keep` on were given back, and nothing before them changed. */
  ghost predicate GivenFrom(s: State, t: State, w: nat, b: nat, keep: nat) {
    && WellFormed(s) && WellFormed(t) && Usable(s, w, b) && Usable(t, w, b) && keep <= |List(s, w, b)|
    && List(t, w, b) == List(s, w, b)[..keep] && Potential(t, w, b) == Potential(s, w, b)
    && GivenBack(s, t, w, b, List(s, w, b)[keep..])
  }

  lemma {:induction false} ReturnAfterGives(s: State, w: nat, b: nat, keep: nat)
    requires WellFormed(s) && Usable(s, w, b) && keep <= |List(s, w, b)|
    ensures GivenFrom(s, ReturnAfter(s, w, b, keep), w, b, keep)
    decreases |List(s, w, b)|
  {
    if |List(s, w, b)| > keep {
      ReturnGives(s, w, b, keep);
      var r := Return(s, w, b, keep);
      ReturnAfterGives(r, w, b, keep);
      GivenFromOne(s, r, ReturnAfter(s, w, b, keep), w, b, keep);
    } else {
      GivenNothing(s, s, w, b);
      assert List(s, w, b)[keep..] == [];
    }
  }

  lemma GivenFromOne(s: State, r: State, t: State, w: nat, b: nat, keep: nat)
    requires WellFormed(s) && Usable(s, w, b) && keep < |List(s, w, b)| && r == Return(s, w, b, keep)
    requires GivenFrom(r, t, w, b, keep)
    ensures GivenFrom(s, t, w, b, keep)
  {
    hide GivenBack;
    ReturnGives(s, w, b, keep);
    hide Return, WellFormed;
    var list := List(s, w, b);
    assert List(r, w, b)[..keep] == list[..keep] && List(r, w, b)[keep..] == list[keep + 1..];
    GivenTwice(s, r, t, w, b, list[keep], list[keep + 1..]);
    assert [list[keep]] + list[keep + 1..] == list[keep..];
  }

  lemma ReturnGives(s: State, w: nat, b: nat, keep: nat)
    requires WellFormed(s) && Usable(s, w, b) && keep < |List(s, w, b)|
    ensures var t := Return(s, w, b, keep); var list := List(s, w, b);
      && WellFormed(t) && List(t, w, b) == list[..keep] + list[keep + 1..] && Potential(t, w, b) == Potential(s, w, b)
      && GivenBack(s, t, w, b, [list[keep]])
  {
  }

  lemma GivenTwice(s: State, r: State, t: State, w: nat, b: nat, a: int, gone: seq<int>)
    requires WellFormed(s) && WellFormed(r) && WellFormed(t) && b < NBUCKETS
    requires GivenBack(s, r, w, b, [a]) && GivenBack(r, t, w, b, gone)
    ensures GivenBack(s, t, w, b, [a] + gone)
  {
    hide BucketSize;
    SameTwice(s, r, t, w, b);
    assert (|gone| + 1) * BucketSize(b) == |gone| * BucketSize(b) + BucketSize(b);
    assert t.globalFree[b][|gone| + 1..] == t.globalFree[b][|gone|..][1..];
    assert r.globalFree[b][0] == [a][0];
    assert t.globalFree[b][|gone|] == t.globalFree[b][|gone|..][0];
  }

  /** The count is the least that makes up half the potential, or the whole list. */
  lemma KeepCountFacts(len: nat, potential: nat, size: nat)
    requires size > 0
    ensures var n := KeepCount(len, potential, size);
      && n <= len && (n == len || 2 * (n * size) >= potential) && (n > 0 ==> 2 * (n * size - size) < potential)
  {
    var half, n := (potential + 2 * size - 1) / (2 * size), KeepCount(len, potential, size);
    assert potential + 2 * size - 1 == half * (2 * size) + (potential + 2 * size - 1) % (2 * size);
    assert half * (2 * size) == 2 * (half * size);
    MulMono(n, half, size);
  }

  /** Half the potential's worth and one block stay; the rest of the list goes to the global pool. */
  lemma TrimGives(s: State, w: nat, b: nat)
    requires WellFormed(s) && Usable(s, w, b)
    ensures TrimDoes(s, Trim(s, w, b), w, b)
  {
    var list, size := List(s, w, b), BucketSize(b);
    assert size > 0;
    hide KeepCount, BucketSize;
    var n := KeepCount(|list|, Potential(s, w, b), size);
    KeepHalves(|list|, Potential(s, w, b), b);
    var r := SetList(s, w, b, list, n * size);
    var keep := if n + 1 < |list| then n + 1 else |list|;
    StoreSame(s, w, b, list, n * size);
    ReturnAfterGives(r, w, b, keep);
    assert ReturnAfter(r, w, b, keep) == Trim(s, w, b);
    var t := Trim(s, w, b);
    hide Trim, ReturnAfter, SetList, GivenBack, WellFormed, SameElsewhere, Halved;
    GivenAfter(s, r, t, w, b, list[keep..]);
  }

  lemma StoreSame(s: State, w: nat, b: nat, list: seq<int>, potential: nat)
    requires WellFormed(s) && Usable(s, w, b)
    ensures var t := SetList(s, w, b, list, potential);
      && WellFormed(t) && Usable(t, w, b) && List(t, w, b) == list && Potential(t, w, b) == potential
      && SameElsewhere(s, t, w, b) && t == s.(caches := t.caches)
  {
  }

  lemma GivenAfter(s: State, r: State, t: State, w: nat, b: nat, gone: seq<int>)
    requires WellFormed(s) && WellFormed(r) && WellFormed(t) && b < NBUCKETS
    requires SameElsewhere(s, r, w, b) && r == s.(caches := r.caches) && GivenBack(r, t, w, b, gone)
    ensures GivenBack(s, t, w, b, gone)
  {
    hide BucketSize;
    SameTwice(s, r, t, w, b);
  }

  lemma GivenNothing(s: State, t: State, w: nat, b: nat)
    requires WellFormed(s) && WellFormed(t) && b < NBUCKETS
    requires SameElsewhere(s, t, w, b) && t == s.(caches := t.caches)
    ensures GivenBack(s, t, w, b, [])
  {
  }

  lemma KeepHalves(len: nat, potential: nat, b: nat)
    requires b < NBUCKETS
    ensures var n := KeepCount(len, potential, BucketSize(b));
      && n * BucketSize(b) >= 0
      && Halved(len, potential, if n + 1 < len then n + 1 else len, n * BucketSize(b), BucketSize(b))
  {
    var size := BucketSize(b);
    assert size > 0;
    hide BucketSize, KeepCount;
    KeepCountFacts(len, potential, size);
    var n := KeepCount(len, potential, size);
    assert (n + 1 - 1) * size == n * size;
  }

  /** Freeing, whatever the potential: the block stays cached below the limit, and trimming keeps
      half the potential's worth. */
  lemma FreeOutright(s: State, w: nat, p: int, b: nat)
    requires Inv(s) && Usable(s, w, b) && p in s.blocks && s.blocks[p] == Block(b, Live)
    ensures FreeDoes(s, Free(s, w, p, b), w, p, b)
  {
    hide BucketSize, Trim;
    assert WellFormed(s);
    hide Inv;
    var size := BucketSize(b);
    var cached := s.(blocks := s.blocks[p := Block(b, Cached(w))]);
    var r := Put(s, w, p, b);
    StoreSame(cached, w, b, [p] + List(s, w, b), Potential(s, w, b) + size);
    assert r == SetList(cached, w, b, [p] + List(s, w, b), Potential(s, w, b) + size);
    if Potential(r, w, b) > POTENTIAL_LIMIT {
      TrimGives(r, w, b);
      var t := Trim(r, w, b);
      hide Put, SetList, GivenBack, WellFormed, SameElsewhere;
      GivenAfter(cached, r, t, w, b, List(r, w, b)[|List(t, w, b)|..]);
    } else {
      hide Put, SetList, GivenBack, WellFormed, SameElsewhere;
      GivenNothing(cached, r, w, b);
    }
  }

  /** A batch, youngest first: the blocks `pooled` in their order while there are any, then blocks
      at addresses where none has been; `left` stays pooled. */
  ghost predicate Served(pooled: seq<int>, left: seq<int>, batch: seq<int>, blocks: map<int, Block>) {
    var n := |batch|;
    && left == pooled[if n < |pooled| then n else |pooled|..]
    && (forall j :: 0 <= j < n ==> if n - 1 - j < |pooled| then batch[j] == pooled[n - 1 - j] else batch[j] !in blocks)
  }

  /** A batch from the global pool onto the worker's list; the chunk is touched only when the
      pooled blocks of the bucket run out. */
  ghost predicate Refilled(s: State, t: State, w: nat, b: nat, batch: seq<int>)
    requires WellFormed(s) && WellFormed(t) && Usable(s, w, b) && Usable(t, w, b)
  {
    var n, pooled := |batch|, s.globalFree[b];
    && SameElsewhere(s, t, w, b)
    && Potential(t, w, b) == Potential(s, w, b) + n * BucketSize(b)
    && t.fromPool == s.fromPool + n * BucketSize(b)
    && (forall c :: 0 <= c < NBUCKETS && c != b ==> t.globalFree[c] == s.globalFree[c])
    && Served(pooled, t.globalFree[b], batch, s.blocks)
    && (n <= |pooled| ==> t == s.(caches := t.caches, blocks := t.blocks, globalFree := t.globalFree, fromPool := t.fromPool))
  }

  /** What an allocation of block `a` does: the head of the worker's list while there is one and
      nothing else; otherwise a batch is fetched that reaches BATCH_SIZE bytes with its last block. */
  ghost predicate MallocDoes(s: State, t: State, w: nat, b: nat, a: int) {
    && WellFormed(s) && WellFormed(t) && Usable(s, w, b) && Usable(t, w, b)
    && var size, rest := BucketSize(b), List(t, w, b);
    if List(s, w, b) != [] then
      && [a] + rest == List(s, w, b) && Potential(t, w, b) == Potential(s, w, b)
      && SameElsewhere(s, t, w, b) && t == s.(caches := t.caches, blocks := s.blocks[a := Block(b, Live)])
    else
      && |rest| * size < BATCH_SIZE <= |rest| * size + size
      && Refilled(s, t, w, b, [a] + rest)
      && ChangedHands(s.blocks[a := Block(b, Live)], t.blocks, rest, Block(b, Cached(w)))
  }

  lemma RefillGives(s: State, w: nat, b: nat, os: seq<int> -> int)
    requires Core(s) && Usable(s, w, b) && OsOk(os)
    ensures var t := Refill(s, w, b, os); var mem := GlobalAlloc(s, b, os).1;
      && WellFormed(t) && List(t, w, b) == [mem] + List(s, w, b)
      && Refilled(s, t, w, b, [mem]) && ChangedHands(s.blocks, t.blocks, [mem], Block(b, Cached(w)))
  {
    hide Accounted, Disjoint, Placed, BucketSize;
    if s.globalFree[b] == [] {
      FreshAddress(s, b, os);
    }
  }

  /** The first `n` blocks of the worker's list are a batch; what it had follows. */
  ghost predicate BatchAdded(s: State, t: State, w: nat, b: nat, n: nat) {
    && WellFormed(s) && WellFormed(t) && Usable(s, w, b) && Usable(t, w, b) && n <= |List(t, w, b)|
    && List(t, w, b)[n..] == List(s, w, b)
    && Refilled(s, t, w, b, List(t, w, b)[..n]) && ChangedHands(s.blocks, t.blocks, List(t, w, b)[..n], Block(b, Cached(w)))
  }

  lemma {:induction false} RefillNGives(s: State, w: nat, b: nat, n: nat, os: seq<int> -> int)
    requires Core(s) && Usable(s, w, b) && OsOk(os)
    ensures BatchAdded(s, RefillN(s, w, b, n, os), w, b, n)
  {
    hide OsOk, Refill, BatchAdded, Core;
    if n == 0 {
      NothingAdded(s, w, b);
    } else {
      var r := RefillN(s, w, b, n - 1, os);
      RefillNGives(s, w, b, n - 1, os);
      RefillNCore(s, w, b, n - 1, os);
      OneMoreAdded(s, r, w, b, n - 1, os);
    }
  }

  lemma NothingAdded(s: State, w: nat, b: nat)
    requires Core(s) && Usable(s, w, b)
    ensures BatchAdded(s, s, w, b, 0)
  {
    hide BucketSize;
  }

  lemma OneMoreAdded(s: State, r: State, w: nat, b: nat, n: nat, os: seq<int> -> int)
    requires Core(r) && Usable(r, w, b) && OsOk(os) && BatchAdded(s, r, w, b, n)
    ensures BatchAdded(s, Refill(r, w, b, os), w, b, n + 1)
  {
    hide Core, OsOk, Refilled, ChangedHands, WellFormed;
    RefillGives(r, w, b, os);
    var mem, batch, t := GlobalAlloc(r, b, os).1, List(r, w, b)[..n], Refill(r, w, b, os);
    hide Refill, GlobalAlloc;
    RefilledTwice(s, r, t, w, b, mem, batch);
    HandsTwice(s.blocks, r.blocks, t.blocks, mem, batch, Block(b, Cached(w)));
    assert List(t, w, b)[..n + 1] == [mem] + batch;
    assert List(t, w, b)[n + 1..] == List(r, w, b)[n..];
  }

  lemma RefilledTwice(s: State, r: State, t: State, w: nat, b: nat, mem: int, batch: seq<int>)
    requires WellFormed(s) && WellFormed(r) && WellFormed(t) && Usable(s, w, b) && Usable(r, w, b) && Usable(t, w, b)
    requires Refilled(s, r, w, b, batch) && Refilled(r, t, w, b, [mem])
    requires ChangedHands(s.blocks, r.blocks, batch, Block(b, Cached(w)))
    ensures Refilled(s, t, w, b, [mem] + batch)
  {
    hide BucketSize;
    SameTwice(s, r, t, w, b);
    var n := |batch|;
    assert (n + 1) * BucketSize(b) == n * BucketSize(b) + BucketSize(b);
    ServedTwice(s.globalFree[b], r.globalFree[b], t.globalFree[b], mem, batch, s.blocks, r.blocks);
    hide Served, SameElsewhere, ChangedHands;
  }

  lemma ServedTwice(pooled: seq<int>, middle: seq<int>, left: seq<int>, mem: int, batch: seq<int>, blocks: map<int, Block>, later: map<int, Block>)
    requires Served(pooled, middle, batch, blocks) && Served(middle, left, [mem], later)
    requires forall a :: a in blocks ==> a in later
    ensures Served(pooled, left, [mem] + batch, blocks)
  {
    assert [mem][0] == mem;
  }

  lemma HandsTwice(before: map<int, Block>, middle: map<int, Block>, after: map<int, Block>, mem: int, batch: seq<int>, block: Block)
    requires ChangedHands(before, middle, batch, block) && ChangedHands(middle, after, [mem], block)
    ensures ChangedHands(before, after, [mem] + batch, block)
  {
  }

  /** Allocation, with or without a batch. */
  lemma MallocOutright(s: State, w: nat, b: nat, os: seq<int> -> int)
    requires Inv(s) && Usable(s, w, b) && OsOk(os)
    ensures var (t, a) := Malloc(s, w, b, os); MallocDoes(s, t, w, b, a)
  {
    hide OsOk, RefillN, Accounted, Disjoint, Placed, AllBounded, MallocDoes, BatchFetched;
    var r := Stocked(s, w, b, os);
    assert Core(s);
    if List(s, w, b) == [] {
      BatchGives(s, w, b, os);
      BatchThenTake(s, r, w, b);
    } else {
      JustTake(s, w, b);
    }
  }

  /** The worker's list was empty and now is one batch, whose last block reached BATCH_SIZE bytes. */
  ghost predicate BatchFetched(s: State, r: State, w: nat, b: nat) {
    && WellFormed(s) && WellFormed(r) && Usable(s, w, b) && Usable(r, w, b) && List(r, w, b) != []
    && Refilled(s, r, w, b, List(r, w, b)) && ChangedHands(s.blocks, r.blocks, List(r, w, b), Block(b, Cached(w)))
    && List(r, w, b)[0] !in List(r, w, b)[1..]
    && |List(r, w, b)[1..]| * BucketSize(b) < BATCH_SIZE <= |List(r, w, b)[1..]| * BucketSize(b) + BucketSize(b)
  }

  lemma BatchGives(s: State, w: nat, b: nat, os: seq<int> -> int)
    requires Core(s) && Usable(s, w, b) && OsOk(os) && List(s, w, b) == []
    ensures BatchFetched(s, RefillN(s, w, b, BatchCount(b), os), w, b)
  {
    hide OsOk, Core, RefillN, BucketSize, BatchCount, Refilled, ChangedHands;
    var n := BatchCount(b);
    BatchCountBound(b);
    RefillNGives(s, w, b, n, os);
    RefillNCore(s, w, b, n, os);
    var r := RefillN(s, w, b, n, os);
    assert List(r, w, b)[..n] == List(r, w, b);
    assert (n - 1) * BucketSize(b) == n * BucketSize(b) - BucketSize(b);
    HeadOnce(r, w, b);
  }

  lemma BatchThenTake(s: State, r: State, w: nat, b: nat)
    requires BatchFetched(s, r, w, b) && List(s, w, b) == []
    ensures var (t, a) := Take(r, w, b); MallocDoes(s, t, w, b, a)
  {
    hide BucketSize;
    var list := List(r, w, b);
    StoreSame(r, w, b, list[1..], Potential(r, w, b));
    hide SetList, Refilled;
    var (t, a) := Take(r, w, b);
    assert [a] + list[1..] == list;
    RefilledTake(s, r, t, w, b);
  }

  lemma JustTake(s: State, w: nat, b: nat)
    requires WellFormed(s) && Usable(s, w, b) && List(s, w, b) != []
    ensures var (t, a) := Take(s, w, b); MallocDoes(s, t, w, b, a)
  {
    hide BucketSize;
    var list := List(s, w, b);
    StoreSame(s, w, b, list[1..], Potential(s, w, b));
    assert [list[0]] + list[1..] == list;
  }

  lemma HeadOnce(r: State, w: nat, b: nat)
    requires Core(r) && Usable(r, w, b) && List(r, w, b) != []
    ensures List(r, w, b)[0] !in List(r, w, b)[1..]
  {
    assert Lists(r.caches[w].freeList[b], r.blocks, Block(b, Cached(w)));
  }

  lemma RefilledTake(s: State, r: State, t: State, w: nat, b: nat)
    requires WellFormed(s) && WellFormed(r) && WellFormed(t) && Usable(s, w, b) && Usable(r, w, b) && Usable(t, w, b)
    requires List(r, w, b) != [] && List(t, w, b) == List(r, w, b)[1..] && Potential(t, w, b) == Potential(r, w, b)
    requires SameElsewhere(r, t, w, b) && t == r.(caches := t.caches, blocks := t.blocks)
    requires Refilled(s, r, w, b, List(r, w, b))
    ensures Refilled(s, t, w, b, List(r, w, b))
  {
    hide BucketSize, Served;
    SameTwice(s, r, t, w, b);
  }

  // ---------------------------------------------------------------- whole runs

  /** The smallest bucket whose blocks can hold `size` bytes. */
  function BucketOf(size: nat): (b: nat)
    requires size <= MAX_SIZE
    ensures b < NBUCKETS && size <= BucketSize(b) && (b > 0 ==> BucketSize(b - 1) < size)
  {
    if size <= 64 then 0 else if size <= 128 then 1 else if size <= 256 then 2
    else if size <= 512 then 3 else if size <= 1024 then 4 else 5
  }

  datatype Op = DoMalloc(w: nat, size: nat) | DoFree(w: nat, p: int, size: nat) | DoCleanup(w: nat)

  /** What callers owe the allocator: a worker that has not left, and only live blocks freed,
      with a size of the bucket they were allocated from. */
  predicate Allowed(s: State, op: Op) {
    match op
    case DoMalloc(w, size) => Active(s, w) && size <= MAX_SIZE
    case DoFree(w, p, size) => Active(s, w) && size <= MAX_SIZE && p in s.blocks && s.blocks[p] == Block(BucketOf(size), Live)
    case DoCleanup(w) => Active(s, w)
  }

  function Do(s: State, op: Op, os: seq<int> -> int): State
    requires Allowed(s, op)
  {
    match op
    case DoMalloc(w, size) => Malloc(s, w, BucketOf(size), os).0
    case DoFree(w, p, size) => Free(s, w, p, BucketOf(size))
    case DoCleanup(w) => Retire(s, w)
  }

  ghost predicate AllAllowed(s: State, ops: seq<Op>, os: seq<int> -> int)
    decreases |ops|
  {
    ops == [] || (Allowed(s, ops[0]) && AllAllowed(Do(s, ops[0], os), ops[1..], os))
  }

  ghost function DoAll(s: State, ops: seq<Op>, os: seq<int> -> int): State
    requires AllAllowed(s, ops, os)
    decreases |ops|
  {
    if ops == [] then s else DoAll(Do(s, ops[0], os), ops[1..], os)
  }

  lemma DoInv(s: State, op: Op, os: seq<int> -> int)
    requires Inv(s) && Allowed(s, op) && OsOk(os)
    ensures Inv(Do(s, op, os))
  {
    hide Inv, OsOk, Malloc, Free, Retire;
    match op
    case DoMalloc(w, size) => MallocInv(s, w, BucketOf(size), os);
    case DoFree(w, p, size) => FreeInv(s, w, p, BucketOf(size));
    case DoCleanup(w) => RetireInv(s, w);
  }

  lemma {:induction false} DoAllInv(s: State, ops: seq<Op>, os: seq<int> -> int)
    requires Inv(s) && AllAllowed(s, ops, os) && OsOk(os)
    ensures Inv(DoAll(s, ops, os))
    decreases |ops|
  {
    hide Inv, OsOk, Do;
    if ops != [] {
      DoInv(s, ops[0], os);
      DoAllInv(Do(s, ops[0], os), ops[1..], os);
    }
  }

  lemma {:induction false} EmptyCached(caches: seq<Cache>)
    requires forall v :: 0 <= v < |caches| ==> |caches[v].freeList| == NBUCKETS && Bytes(caches[v].freeList) == 0
    ensures CachedBytes(caches) == 0
  {
    if caches != [] {
      EmptyCached(caches[..|caches| - 1]);
    }
  }

  lemma NoneLiveIn(blocks: map<int, Block>, b: nat)
    requires forall a :: a in blocks ==> blocks[a].place != Live
    ensures |LiveIn(blocks, b)| == 0
  {
    forall a ensures a !in LiveIn(blocks, b) {
    }
  }

  lemma NoneLive(blocks: map<int, Block>)
    requires forall a :: a in blocks ==> blocks[a].place != Live
    ensures LiveBytes(blocks) == 0
  {
    NoneLiveIn(blocks, 0);
    NoneLiveIn(blocks, 1);
    NoneLiveIn(blocks, 2);
    NoneLiveIn(blocks, 3);
    NoneLiveIn(blocks, 4);
    NoneLiveIn(blocks, 5);
  }

  lemma InitInv(nworkers: nat)
    ensures Inv(Init(nworkers))
  {
    InitDisjoint(nworkers);
    InitPlaced(nworkers);
    InitAccounted(nworkers);
    hide Disjoint, Placed, Accounted, NewCaches;
  }

  lemma InitAccounted(nworkers: nat)
    ensures WellFormed(Init(nworkers)) && Accounted(Init(nworkers))
  {
    hide NewCaches, CachedBytes, LiveBytes;
    var s := Init(nworkers);
    EmptyCached(s.caches);
    NoneLive(s.blocks);
  }

  lemma InitDisjoint(nworkers: nat)
    ensures Disjoint(Init(nworkers))
  {
    hide NewCaches;
  }

  lemma InitPlaced(nworkers: nat)
    ensures WellFormed(Init(nworkers)) && Placed(Init(nworkers))
  {
  }

  ghost predicate Reachable(s: State) {
    exists n: nat, ops: seq<Op>, os: seq<int> -> int ::
      OsOk(os) && AllAllowed(Init(n), ops, os) && DoAll(Init(n), ops, os) == s
  }

  lemma ReachableInv(s: State)
    requires Reachable(s)
    ensures Inv(s)
  {
    hide Inv, OsOk;
    var n: nat, ops: seq<Op>, os: seq<int> -> int :|
      OsOk(os) && AllAllowed(Init(n), ops, os) && DoAll(Init(n), ops, os) == s;
    InitInv(n);
    DoAllInv(Init(n), ops, os);
  }

  /** Although allocation never lowers a potential and trimming keeps one block uncounted, no
      worker ever caches more than the limit and one block in a bucket. */
  lemma CacheBounded(s: State, w: nat, b: nat)
    requires Reachable(s) && Usable(s, w, b)
    ensures |List(s, w, b)| * BucketSize(b) <= POTENTIAL_LIMIT + BucketSize(b)
    ensures |List(s, w, b)| * BucketSize(b) <= Potential(s, w, b) + BucketSize(b)
    ensures Potential(s, w, b) > POTENTIAL_LIMIT ==> |List(s, w, b)| * BucketSize(b) < BATCH_SIZE
  {
    hide Reachable, Disjoint, Accounted, Placed;
    ReachableInv(s);
    OneBounded(s, w, b);
  }

  /** Every byte from the OS is wasted, still in the pool, on a global list, or with the workers;
      what is with the workers is cached or live; waste is less than a block per chunk. */
  lemma BytesConserved(s: State)
    requires Reachable(s)
    ensures WellFormed(s)
    ensures s.fromOs == s.wasted + (s.poolEnd - s.poolBegin) + Bytes(s.globalFree) + s.fromPool
    ensures s.fromPool == CachedBytes(s.caches) + LiveBytes(s.blocks)
    ensures s.fromOs == |s.poolList| * CHUNK && 0 <= s.wasted <= |s.poolList| * 2047
  {
    hide Reachable, Disjoint, Placed;
    ReachableInv(s);
  }

  /** Any two blocks ever handed out or cached occupy disjoint memory, inside one chunk each. */
  lemma BlocksDisjoint(s: State, a: int, d: int)
    requires Reachable(s) && a in s.blocks && d in s.blocks && a != d
    ensures s.blocks[a].bucket < NBUCKETS && s.blocks[d].bucket < NBUCKETS
    ensures a + BucketSize(s.blocks[a].bucket) <= d || d + BucketSize(s.blocks[d].bucket) <= a
    ensures InChunk(s.poolList, a, BucketSize(s.blocks[a].bucket))
  {
    hide Reachable, Accounted, Placed;
    ReachableInv(s);
  }

  /** A block is on a list exactly when it is in that place: on no list while live, on one list,
      once, otherwise. */
  lemma BlocksPlaced(s: State, a: int, w: nat, b: nat)
    requires Reachable(s) && Usable(s, w, b)
    ensures a in List(s, w, b) <==> a in s.blocks && s.blocks[a] == Block(b, Cached(w))
    ensures a in s.globalFree[b] <==> a in s.blocks && s.blocks[a] == Block(b, Pooled)
    ensures multiset(List(s, w, b))[a] <= 1 && multiset(s.globalFree[b])[a] <= 1
  {
    hide Reachable, Accounted, Disjoint;
    ReachableInv(s);
    AtMostOnce(List(s, w, b), a);
    AtMostOnce(s.globalFree[b], a);
  }

  lemma AtMostOnce(list: seq<int>, a: int)
    requires forall i, j :: 0 <= i < j < |list| ==> list[i] != list[j]
    ensures multiset(list)[a] <= 1
  {
    if k :| 0 <= k < |list| && list[k] == a {
      assert list == list[..k] + ([a] + list[k + 1..]);
      assert a !in list[..k];
      assert a !in list[k + 1..];
    }
  }

  lemma {:induction false} RetiredCacheNothing(caches: seq<Cache>)
    requires forall v :: 0 <= v < |caches| ==> |caches[v].freeList| == NBUCKETS && caches[v].retired
    ensures CachedBytes(caches) == 0
  {
    if caches != [] {
      RetiredCacheNothing(caches[..|caches| - 1]);
    }
  }

  /** With Inv, once every worker has cleaned up: bytes are missing exactly when a block is in use. */
  lemma LeakIffLive(s: State)
    requires Inv(s) && forall v :: 0 <= v < |s.caches| ==> s.caches[v].retired
    ensures s.fromPool != 0 <==> exists a :: a in s.blocks && s.blocks[a].place == Live
  {
    hide Placed;
    RetiredCacheNothing(s.caches);
    assert s.fromPool == LiveBytes(s.blocks);
    if a :| a in s.blocks && s.blocks[a].place == Live {
      assert a in LiveIn(s.blocks, s.blocks[a].bucket);
    } else {
      NoneLive(s.blocks);
    }
  }

  lemma {:induction false} CachedNonNegative(caches: seq<Cache>)
    requires forall v :: 0 <= v < |caches| ==> |caches[v].freeList| == NBUCKETS
    ensures CachedBytes(caches) >= 0
  {
    if caches != [] {
      CachedNonNegative(caches[..|caches| - 1]);
    }
  }

  /** The global lists never hold more than what came from the operating system. */
  lemma NeverCorrupted(s: State)
    requires Inv(s)
    ensures |s.globalFree| == NBUCKETS && Bytes(s.globalFree) <= s.fromOs
  {
    hide Placed, AllBounded;
    CachedNonNegative(s.caches);
  }

  /** Once every worker has cleaned up, the leak report fires exactly when a block is still in
      use; the corruption report never does. */
  lemma LeakReportExact(s: State)
    requires Reachable(s) && forall v :: 0 <= v < |s.caches| ==> s.caches[v].retired
    ensures s.fromPool != 0 <==> exists a :: a in s.blocks && s.blocks[a].place == Live
    ensures |s.globalFree| == NBUCKETS && !(Bytes(s.globalFree) > s.fromOs)
  {
    hide Reachable, Inv;
    ReachableInv(s);
    LeakIffLive(s);
    NeverCorrupted(s);
  }
}
