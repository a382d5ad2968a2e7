/**
 Pools of fibers, each with an optional parent: fibers are taken from the nearest pool that has
 one or from the heap, and given back to a pool, which frees some when it is full.  Each pool
 counts the fibers allocated from the heap on its behalf; the counts of all pools together
 account for every fiber there is.
*/
module FiberPools {
  import opened Wrappers

  /** A pool: its fibers with the last one on top, and its counters.  `total` may be negative. */
  datatype Pool = Pool(fibers: seq<nat>, maxSize: nat, total: int, highWater: int, allocMax: int, parent: Option<nat>)

  /** Where a fiber is. */
  datatype Home = InUse | InPool(p: nat)

  // ---------------------------------------------------------------- sums

  ghost function SumTotal(pools: seq<Pool>): int {
    if pools == [] then 0 else SumTotal(pools[..|pools| - 1]) + pools[|pools| - 1].total
  }

  ghost function SumSize(pools: seq<Pool>): int {
    if pools == [] then 0 else SumSize(pools[..|pools| - 1]) + |pools[|pools| - 1].fibers|
  }

  lemma {:induction false} SumUpdate(pools: seq<Pool>, p: nat, r: Pool)
    requires p < |pools|
    ensures SumTotal(pools[p := r]) == SumTotal(pools) - pools[p].total + r.total
    ensures SumSize(pools[p := r]) == SumSize(pools) - |pools[p].fibers| + |r.fibers|
    decreases |pools|
  {
    var last := |pools| - 1;
    if p == last {
      assert pools[p := r][..last] == pools[..last];
    } else {
      assert pools[p := r][..last] == pools[..last][p := r];
      SumUpdate(pools[..last], p, r);
    }
  }

  lemma SumAppend(pools: seq<Pool>, r: Pool)
    ensures SumTotal(pools + [r]) == SumTotal(pools) + r.total
    ensures SumSize(pools + [r]) == SumSize(pools) + |r.fibers|
  {
    assert (pools + [r])[..|pools|] == pools;
  }

  // ---------------------------------------------------------------- the invariant

  ghost predicate PoolOk(q: Pool, p: nat) {
    && |q.fibers| <= q.maxSize && 0 < q.maxSize
    && q.total <= q.highWater && 0 <= q.highWater
    && (q.parent.Some? ==> q.parent.value < p)
  }

  ghost predicate PoolsOk(pools: seq<Pool>) {
    forall p :: 0 <= p < |pools| ==> PoolOk(pools[p], p)
  }

  /** Every fiber is in one place: in one slot of one pool, or in use. */
  ghost predicate Placed(pools: seq<Pool>, home: map<nat, Home>) {
    && (forall p, i :: 0 <= p < |pools| && 0 <= i < |pools[p].fibers| ==>
          pools[p].fibers[i] in home && home[pools[p].fibers[i]] == InPool(p))
    && (forall p, i, j :: 0 <= p < |pools| && 0 <= i < j < |pools[p].fibers| ==> pools[p].fibers[i] != pools[p].fibers[j])
    && (forall f :: f in home && home[f].InPool? ==> home[f].p < |pools| && f in pools[home[f].p].fibers)
  }

  ghost function InUseSet(home: map<nat, Home>): set<nat> {
    set f | f in home && home[f] == InUse
  }

  /** The pools' counts account for every fiber there is; `ahead` is how many fibers were allocated
      without being counted, less those counted that the heap has still to give. */
  ghost predicate Accounted(pools: seq<Pool>, home: map<nat, Home>, ahead: int) {
    && SumTotal(pools) + ahead == |home.Keys|
    && SumTotal(pools) + ahead == SumSize(pools) + |InUseSet(home)|
  }

  ghost predicate Inv(pools: seq<Pool>, home: map<nat, Home>, ahead: int) {
    PoolsOk(pools) && Placed(pools, home) && Accounted(pools, home, ahead)
  }

  // ---------------------------------------------------------------- moves of one fiber

  function Popped(q: Pool): Pool
    requires q.fibers != []
  {
    q.(fibers := q.fibers[..|q.fibers| - 1])
  }

  function Pushed(q: Pool, f: nat): Pool {
    q.(fibers := q.fibers + [f])
  }

  function Top(q: Pool): nat
    requires q.fibers != []
  {
    q.fibers[|q.fibers| - 1]
  }

  /** One more fiber from the heap. */
  function Counted(q: Pool): Pool {
    q.(total := q.total + 1, highWater := if q.highWater < q.total + 1 then q.total + 1 else q.highWater)
  }

  lemma InUseUpdate(home: map<nat, Home>, f: nat, h: Home)
    ensures |InUseSet(home[f := h])|
         == |InUseSet(home)| - (if f in home && home[f] == InUse then 1 else 0) + (if h == InUse then 1 else 0)
    ensures |home[f := h].Keys| == |home.Keys| + (if f in home then 0 else 1)
  {
    KeysUpdate(home, f, h);
    hide InUseSet;
    InUseOnly(home, f, h);
  }

  lemma KeysUpdate(home: map<nat, Home>, f: nat, h: Home)
    ensures |home[f := h].Keys| == |home.Keys| + (if f in home then 0 else 1)
  {
    assert home[f := h].Keys == home.Keys + {f};
  }

  lemma InUseOnly(home: map<nat, Home>, f: nat, h: Home)
    ensures |InUseSet(home[f := h])|
         == |InUseSet(home)| - (if f in home && home[f] == InUse then 1 else 0) + (if h == InUse then 1 else 0)
  {
    var rest := InUseSet(home) - {f};
    assert InUseSet(home[f := h]) == if h == InUse then rest + {f} else rest;
    assert InUseSet(home) == if f in home && home[f] == InUse then rest + {f} else rest;
  }

  lemma InUseRemove(home: map<nat, Home>, f: nat)
    ensures |InUseSet(home - {f})| == |InUseSet(home)| - (if f in home && home[f] == InUse then 1 else 0)
    ensures |(home - {f}).Keys| == |home.Keys| - (if f in home then 1 else 0)
  {
    KeysRemove(home, f);
    hide InUseSet;
    InUseWithout(home, f);
  }

  lemma KeysRemove(home: map<nat, Home>, f: nat)
    ensures |(home - {f}).Keys| == |home.Keys| - (if f in home then 1 else 0)
  {
    assert (home - {f}).Keys == home.Keys - {f};
  }

  lemma InUseWithout(home: map<nat, Home>, f: nat)
    ensures |InUseSet(home - {f})| == |InUseSet(home)| - (if f in home && home[f] == InUse then 1 else 0)
  {
    var rest := InUseSet(home) - {f};
    assert InUseSet(home - {f}) == rest;
    assert InUseSet(home) == if f in home && home[f] == InUse then rest + {f} else rest;
  }

  lemma NotInUse(home: map<nat, Home>, f: nat, p: nat)
    requires f !in home
    ensures InUseSet(home[f := InPool(p)]) == InUseSet(home)
  {
  }

  /** What a call that may put a fiber back takes out of use. */
  function Returned(back: Option<nat>): set<nat> {
    if back.Some? then {back.value} else {}
  }

  lemma InUseLess(home: map<nat, Home>, f: nat, p: nat)
    ensures InUseSet(home[f := InPool(p)]) == InUseSet(home) - {f}
  {
  }

  lemma InUseMore(home: map<nat, Home>, f: nat)
    ensures InUseSet(home[f := InUse]) == InUseSet(home) + {f}
  {
  }

  lemma InUseWithoutAll(home: map<nat, Home>, gone: set<nat>)
    ensures InUseSet(home - gone) == InUseSet(home) - gone
  {
  }

  lemma PooledNotInUse(pools: seq<Pool>, home: map<nat, Home>, p: nat, q: nat)
    requires Placed(pools, home) && p < |pools| && pools[p].fibers != []
    ensures InUseSet(home[Top(pools[p]) := InPool(q)]) == InUseSet(home)
  {
  }

  lemma TakeInv(pools: seq<Pool>, home: map<nat, Home>, ahead: int, p: nat)
    requires Inv(pools, home, ahead) && p < |pools| && pools[p].fibers != []
    ensures var f := Top(pools[p]);
      f in home && home[f] == InPool(p) && Inv(pools[p := Popped(pools[p])], home[f := InUse], ahead)
  {
    TakePlaced(pools, home, p);
    SumUpdate(pools, p, Popped(pools[p]));
    InUseUpdate(home, Top(pools[p]), InUse);
    hide Placed, SumTotal, SumSize, InUseSet;
  }

  lemma TakePlaced(pools: seq<Pool>, home: map<nat, Home>, p: nat)
    requires Placed(pools, home) && p < |pools| && pools[p].fibers != []
    ensures var f := Top(pools[p]);
      f in home && home[f] == InPool(p) && Placed(pools[p := Popped(pools[p])], home[f := InUse])
  {
  }

  lemma GiveInv(pools: seq<Pool>, home: map<nat, Home>, ahead: int, p: nat, f: nat)
    requires Inv(pools, home, ahead) && p < |pools| && |pools[p].fibers| < pools[p].maxSize && f in home && home[f] == InUse
    ensures Inv(pools[p := Pushed(pools[p], f)], home[f := InPool(p)], ahead)
  {
    SumUpdate(pools, p, Pushed(pools[p], f));
    InUseUpdate(home, f, InPool(p));
    assert forall i :: 0 <= i < |pools[p].fibers| ==> pools[p].fibers[i] != f;
  }

  /** A fiber in use goes back to the heap, and the pool's count with it. */
  lemma FreeInv(pools: seq<Pool>, home: map<nat, Home>, ahead: int, p: nat, f: nat)
    requires Inv(pools, home, ahead) && p < |pools| && f in home && home[f] == InUse
    ensures Inv(pools[p := pools[p].(total := pools[p].total - 1)], home - {f}, ahead)
  {
    SumUpdate(pools, p, pools[p].(total := pools[p].total - 1));
    InUseRemove(home, f);
  }

  /** Pool `p` counts a fiber that is to come from the heap. */
  lemma CountInv(pools: seq<Pool>, home: map<nat, Home>, ahead: int, p: nat)
    requires Inv(pools, home, ahead) && p < |pools|
    ensures Inv(pools[p := Counted(pools[p])], home, ahead - 1)
  {
    SumUpdate(pools, p, Counted(pools[p]));
  }

  /** The heap gives a fiber that has been counted. */
  lemma HeapInv(pools: seq<Pool>, home: map<nat, Home>, ahead: int, f: nat)
    requires Inv(pools, home, ahead) && f !in home
    ensures Inv(pools, home[f := InUse], ahead + 1)
  {
    InUseUpdate(home, f, InUse);
  }

  /** The heap is out of memory and the count is taken back; the high-water mark stays. */
  lemma UncountInv(pools: seq<Pool>, home: map<nat, Home>, ahead: int, p: nat)
    requires Inv(pools, home, ahead) && p < |pools|
    ensures Inv(pools[p := pools[p].(total := pools[p].total - 1)], home, ahead + 1)
  {
    SumUpdate(pools, p, pools[p].(total := pools[p].total - 1));
  }

  /** From the top of one pool to the top of another. */
  lemma MoveInv(pools: seq<Pool>, home: map<nat, Home>, ahead: int, p: nat, q: nat)
    requires Inv(pools, home, ahead) && p < |pools| && q < |pools| && p != q
    requires pools[p].fibers != [] && |pools[q].fibers| < pools[q].maxSize
    ensures var f := Top(pools[p]);
      Inv(pools[p := Popped(pools[p])][q := Pushed(pools[q], f)], home[f := InPool(q)], ahead)
  {
    var f := Top(pools[p]);
    TakeInv(pools, home, ahead, p);
    GiveInv(pools[p := Popped(pools[p])], home[f := InUse], ahead, q, f);
    assert home[f := InUse][f := InPool(q)] == home[f := InPool(q)];
  }

  /** A negative count is handed to the parent. */
  lemma SurplusInv(pools: seq<Pool>, home: map<nat, Home>, ahead: int, p: nat, q: nat)
    requires Inv(pools, home, ahead) && p < |pools| && q < |pools| && p != q && pools[p].total < 0
    ensures Inv(pools[p := pools[p].(total := 0)][q := pools[q].(total := pools[q].total + pools[p].total)], home, ahead)
  {
    var r := pools[p := pools[p].(total := 0)];
    SumUpdate(pools, p, pools[p].(total := 0));
    SumUpdate(r, q, pools[q].(total := pools[q].total + pools[p].total));
  }

  lemma AddPoolInv(pools: seq<Pool>, home: map<nat, Home>, ahead: int, r: Pool)
    requires Inv(pools, home, ahead) && r.fibers == [] && r.total == 0 && PoolOk(r, |pools|)
    ensures Inv(pools + [r], home, ahead)
  {
    SumAppend(pools, r);
    hide SumTotal, SumSize, InUseSet;
  }

  /** A fiber allocated ahead of time, into a pool, counted by nobody. */
  lemma PreallocateInv(pools: seq<Pool>, home: map<nat, Home>, ahead: int, p: nat, f: nat)
    requires Inv(pools, home, ahead) && p < |pools| && |pools[p].fibers| < pools[p].maxSize && f !in home
    ensures Inv(pools[p := Pushed(pools[p], f)], home[f := InPool(p)], ahead + 1)
  {
    SumUpdate(pools, p, Pushed(pools[p], f));
    InUseUpdate(home, f, InPool(p));
  }

  ghost function Elems(s: seq<nat>): set<nat> {
    set f | f in s
  }

  lemma ElemsMore(s: seq<nat>, f: nat)
    ensures Elems(s + [f]) == Elems(s) + {f}
  {
  }

  ghost predicate Distinct(fs: seq<nat>) {
    forall i, j :: 0 <= i < j < |fs| ==> fs[i] != fs[j]
  }

  /** Several fibers in use go back to the heap at once. */
  lemma {:induction false} FreeAllInv(pools: seq<Pool>, home: map<nat, Home>, ahead: int, p: nat, fs: seq<nat>)
    requires Inv(pools, home, ahead) && p < |pools|
    requires forall i :: 0 <= i < |fs| ==> fs[i] in home && home[fs[i]] == InUse
    requires Distinct(fs)
    ensures Inv(pools[p := pools[p].(total := pools[p].total - |fs|)], home - Elems(fs), ahead)
    decreases |fs|
  {
    hide Inv;
    var gone := Elems(fs);
    if fs == [] {
      assert pools[p := pools[p].(total := pools[p].total - 0)] == pools;
      assert home - gone == home;
    } else {
      var init, f := fs[..|fs| - 1], fs[|fs| - 1];
      var r, h := pools[p := pools[p].(total := pools[p].total - |init|)], home - Elems(init);
      FreeAllInv(pools, home, ahead, p, init);
      assert fs == init + [f] && f !in init;
      FreeInv(r, h, ahead, p, f);
      assert r[p := r[p].(total := r[p].total - 1)] == pools[p := pools[p].(total := pools[p].total - |fs|)];
      assert Elems(init) + {f} == gone;
      assert h - {f} == home - gone;
    }
  }

  // ---------------------------------------------------------------- the code

  /** The nearest pool, from `p` upwards, that has a fiber. */
  ghost function FirstStocked(pools: seq<Pool>, p: nat): (q: Option<nat>)
    requires p < |pools| && PoolsOk(pools)
    ensures q.Some? ==> q.value < |pools| && pools[q.value].fibers != []
  {
    assert PoolOk(pools[p], p);
    if pools[p].fibers != [] then Some(p)
    else if pools[p].parent == None then None
    else FirstStocked(pools, pools[p].parent.value)
  }

  /** The pool that is `n` parents up from `p`. */
  ghost function Ancestor(pools: seq<Pool>, p: nat, n: nat): (q: Option<nat>)
    requires p < |pools| && PoolsOk(pools)
    ensures q.Some? ==> q.value < |pools|
  {
    assert PoolOk(pools[p], p);
    if n == 0 then Some(p)
    else if pools[p].parent == None then None
    else Ancestor(pools, pools[p].parent.value, n - 1)
  }

  ghost predicate NoneBelow(pools: seq<Pool>, p: nat, n: nat)
    requires p < |pools| && PoolsOk(pools)
  {
    forall m: nat :: m < n && Ancestor(pools, p, m).Some? ==> pools[Ancestor(pools, p, m).value].fibers == []
  }

  /** It is the nearest: no pool on the way to it has a fiber, and if there is none no pool up to the root has. */
  lemma {:induction false} NearestStocked(pools: seq<Pool>, p: nat)
    requires p < |pools| && PoolsOk(pools)
    ensures FirstStocked(pools, p).Some? ==>
      exists n: nat :: Ancestor(pools, p, n) == FirstStocked(pools, p) && NoneBelow(pools, p, n)
    ensures FirstStocked(pools, p) == None ==> forall n: nat :: NoneBelow(pools, p, n)
    decreases p
  {
    assert PoolOk(pools[p], p);
    if pools[p].fibers != [] {
      assert Ancestor(pools, p, 0) == FirstStocked(pools, p) && NoneBelow(pools, p, 0);
    } else if pools[p].parent.Some? {
      var r := pools[p].parent.value;
      NearestStocked(pools, r);
      forall n: nat | NoneBelow(pools, r, n) ensures NoneBelow(pools, p, n + 1) {
        forall m: nat | m < n + 1 && Ancestor(pools, p, m).Some? ensures pools[Ancestor(pools, p, m).value].fibers == [] {
          if m > 0 { assert Ancestor(pools, p, m) == Ancestor(pools, r, m - 1); }
        }
      }
      if FirstStocked(pools, p).Some? {
        var n: nat :| Ancestor(pools, r, n) == FirstStocked(pools, r) && NoneBelow(pools, r, n);
        assert Ancestor(pools, p, n + 1) == FirstStocked(pools, p) && NoneBelow(pools, p, n + 1);
      } else {
        forall n: nat ensures NoneBelow(pools, p, n) {
          assert NoneBelow(pools, r, n);
          assert NoneBelow(pools, p, n + 1);
        }
      }
    }
  }

  /** A count taken and given back; the high-water mark stays. */
  function Uncounted(q: Pool): Pool {
    Counted(q).(total := q.total)
  }

  /** What an allocation from `p` may lead to, by what the heap answers on the way up. */
  ghost predicate AllocOutcome(pools0: seq<Pool>, pools: seq<Pool>, p: nat, f: Option<nat>, next: nat)
    requires p < |pools0|
    decreases p
  {
    var q := pools0[p];
    if q.fibers != [] then f == Some(Top(q)) && pools == pools0[p := Popped(q)]
    else
      || (f == Some(next) && pools == pools0[p := Counted(q)])
      || (var r := pools0[p := Uncounted(q)];
          if q.parent.Some? && q.parent.value < p then AllocOutcome(r, pools, q.parent.value, f, next)
          else f == None && pools == r)
  }

  /** No fiber is refused while a pool on the way up has one. */
  lemma {:induction false} RefusedOnlyWhenEmpty(pools0: seq<Pool>, pools: seq<Pool>, p: nat, next: nat)
    requires p < |pools0| && PoolsOk(pools0) && AllocOutcome(pools0, pools, p, None, next)
    ensures FirstStocked(pools0, p) == None
    decreases p
  {
    assert PoolOk(pools0[p], p);
    var q := pools0[p];
    if q.parent.Some? {
      var r := pools0[p := Uncounted(q)];
      UncountedOk(pools0, p);
      RefusedOnlyWhenEmpty(r, pools, q.parent.value, next);
      SameStocked(pools0, r, p, q.parent.value);
    }
  }

  lemma UncountedOk(pools: seq<Pool>, p: nat)
    requires p < |pools| && PoolsOk(pools)
    ensures PoolsOk(pools[p := Uncounted(pools[p])])
  {
  }

  lemma {:induction false} SameStocked(pools: seq<Pool>, r: seq<Pool>, p: nat, q: nat)
    requires p < |pools| && PoolsOk(pools) && r == pools[p := Uncounted(pools[p])] && PoolsOk(r) && q < |pools|
    ensures FirstStocked(r, q) == FirstStocked(pools, q)
    decreases q
  {
    assert PoolOk(pools[q], q);
    if pools[q].fibers == [] && pools[q].parent.Some? {
      SameStocked(pools, r, p, pools[q].parent.value);
    }
  }

  const BATCH: nat := 10

  /** A full pool with `f` instead of its top fiber, which is not counted any more. */
  function WithTop(q: Pool, f: nat): Pool
    requires q.fibers != []
  {
    q.(total := q.total - 1, fibers := q.fibers[..|q.fibers| - 1] + [f])
  }

  lemma TopReplaced(q: Pool, f: nat)
    requires 0 < q.maxSize == |q.fibers|
    ensures WithTop(q, f).fibers == q.fibers[..q.maxSize - 1] + [f] && WithTop(q, f).total == q.total - 1
    ensures Top(q) == q.fibers[q.maxSize - 1]
  {
  }

  lemma NotInUseYet(pools: seq<Pool>, home: map<nat, Home>, q: nat)
    requires Placed(pools, home) && q < |pools| && pools[q].fibers != []
    ensures Top(pools[q]) !in InUseSet(home)
  {
  }

  /** Fibers have gone from the top of `q` to the top of `r`, one by one, so that `q` is `q1` and `r` is `r1`:
      until `r` is full or `q` is down to `keep`, and no further. */
  ghost predicate Moved(q: Pool, r: Pool, q1: Pool, r1: Pool, keep: nat) {
    && q1 == q.(fibers := q1.fibers) && r1 == r.(fibers := r1.fibers)
    && |q1.fibers| + |r1.fibers| == |q.fibers| + |r.fibers|
    && q1.fibers <= q.fibers && r.fibers <= r1.fibers
    && (forall i :: |r.fibers| <= i < |r1.fibers| ==> r1.fibers[i] == q.fibers[|q.fibers| - 1 - (i - |r.fibers|)])
    && (|r1.fibers| >= r.maxSize || |q1.fibers| <= keep)
    && (q1 != q ==> |q1.fibers| >= keep && |r1.fibers| <= r.maxSize)
  }

  class FiberSystem {
    var pools: seq<Pool>
    var nextFiber: nat               // the heap's next fiber
    ghost var home: map<nat, Home>   // every fiber that was allocated and not freed
    ghost var preallocated: nat      // fibers that no pool has counted
    ghost var reserved: nat          // counts for fibers that the heap has not given yet
    ghost var freed: set<nat>

    ghost predicate Valid()
      reads this
    {
      && Inv(pools, home, preallocated - reserved)
      && (forall f :: f in home ==> f < nextFiber && f !in freed) && (forall f :: f in freed ==> f < nextFiber)
      && (forall f :: 0 <= f < nextFiber ==> f in home || f in freed)
    }

    constructor ()
      ensures Valid() && pools == [] && home == map[] && reserved == 0
    {
      pools, nextFiber := [], 0;
      home, preallocated, reserved, freed := map[], 0, 0, {};
      new;
      assert InUseSet(map[]) == {};
    }

    /** A fiber from the heap, if it has memory for one. */
    method AllocateFromHeap() returns (f: Option<nat>)
      modifies this`nextFiber
      ensures f == None ==> nextFiber == old(nextFiber)
      ensures f.Some? ==> f.value == old(nextFiber) && nextFiber == old(nextFiber) + 1
    {
      var ok: bool := *;
      if ok {
        f := Some(nextFiber);
        nextFiber := nextFiber + 1;
      } else {
        f := None;
      }
    }

    /** A new pool, three quarters full of fibers that no pool has counted; the heap has memory for them. */
    method PoolInit(parent: Option<nat>, bufferSize: nat, allocMax: int) returns (p: nat)
      requires Valid() && 0 < bufferSize && (parent.Some? ==> parent.value < |pools|)
      modifies this
      ensures Valid() && p == |old(pools)| && |pools| == p + 1 && pools[..p] == old(pools)
      ensures pools[p] == Pool(pools[p].fibers, bufferSize, 0, 0, allocMax, parent)
      ensures |pools[p].fibers| == bufferSize / 2 + bufferSize / 4 <= bufferSize
      ensures preallocated == old(preallocated) + |pools[p].fibers| && freed == old(freed) && reserved == old(reserved)
      ensures InUseSet(home) == old(InUseSet(home))
    {
      hide Inv, InUseSet, Valid;
      p := |pools|;
      AddPool(Pool([], bufferSize, 0, 0, allocMax, parent));
      Preallocate(p, bufferSize / 2 + bufferSize / 4);
    }

    method AddPool(q: Pool)
      requires Valid() && q.fibers == [] && q.total == 0 && PoolOk(q, |pools|)
      modifies this`pools
      ensures Valid() && pools == old(pools) + [q]
    {
      AddPoolInv(pools, home, preallocated - reserved, q);
      hide Inv;
      pools := pools + [q];
    }

    method Preallocate(p: nat, count: nat)
      requires Valid() && p + 1 == |pools| && pools[p].fibers == [] && count <= pools[p].maxSize
      modifies this`pools, this`nextFiber, this`home, this`preallocated
      ensures Valid() && |pools| == p + 1 && pools[..p] == old(pools)[..p]
      ensures pools[p] == old(pools)[p].(fibers := pools[p].fibers) && |pools[p].fibers| == count
      ensures preallocated == old(preallocated) + count && InUseSet(home) == old(InUseSet(home))
    {
      hide Inv, InUseSet, Valid;
      while |pools[p].fibers| < count
        invariant Valid() && |pools| == p + 1 && pools[..p] == old(pools)[..p] && |pools[p].fibers| <= count
        invariant pools[p] == old(pools)[p].(fibers := pools[p].fibers)
        invariant preallocated == old(preallocated) + |pools[p].fibers| && InUseSet(home) == old(InUseSet(home))
      {
        PreallocateOne(p);
      }
    }

    method PreallocateOne(p: nat)
      requires Valid() && p < |pools| && |pools[p].fibers| < pools[p].maxSize
      modifies this`pools, this`nextFiber, this`home, this`preallocated
      ensures Valid() && pools == old(pools)[p := Pushed(old(pools)[p], old(nextFiber))]
      ensures preallocated == old(preallocated) + 1 && InUseSet(home) == old(InUseSet(home))
    {
      hide Inv, InUseSet;
      var f := nextFiber;
      nextFiber := nextFiber + 1;
      PreallocateInv(pools, home, preallocated - reserved, p, f);
      NotInUse(home, f, p);
      pools := pools[p := Pushed(pools[p], f)];
      home, preallocated := home[f := InPool(p)], preallocated + 1;
    }

    /** The top fiber of a pool that has one. */
    method Pop(p: nat) returns (f: nat)
      requires Valid() && p < |pools| && pools[p].fibers != []
      modifies this`pools, this`home
      ensures Valid() && f == Top(old(pools)[p]) && pools == old(pools)[p := Popped(old(pools)[p])]
      ensures old(pools)[p].fibers == pools[p].fibers + [f]
      ensures home == old(home)[f := InUse] && f in old(home) && old(home)[f] == InPool(p)
    {
      TakeInv(pools, home, preallocated - reserved, p);
      hide Inv;
      f := pools[p].fibers[|pools[p].fibers| - 1];
      pools := pools[p := pools[p].(fibers := pools[p].fibers[..|pools[p].fibers| - 1])];
      home := home[f := InUse];
    }

    // ------------------------------------------------------------ taking, one lock acquisition at a time

    /** The top fiber, if there is one. */
    method TryPop(p: nat) returns (f: Option<nat>)
      requires Valid() && p < |pools|
      modifies this`pools, this`home
      ensures Valid() && (f == None <==> old(pools)[p].fibers == [])
      ensures f == None ==> pools == old(pools) && home == old(home)
      ensures f.Some? ==>
        && f.value == Top(old(pools)[p]) && pools == old(pools)[p := Popped(old(pools)[p])] && old(pools)[p].fibers == pools[p].fibers + [f.value]
        && home == old(home)[f.value := InUse] && f.value in old(home) && old(home)[f.value] == InPool(p)
    {
      hide Inv, Valid;
      f := None;
      if |pools[p].fibers| > 0 {
        var g := Pop(p);
        f := Some(g);
      }
    }

    /** The top fiber, or else a fiber counted that is to come from the heap, if the limit allows it. */
    method Look(p: nat, bounded: bool) returns (f: Option<nat>, counted: bool)
      requires Valid() && p < |pools|
      modifies this`pools, this`home, this`reserved
      ensures Valid() && reserved == old(reserved) + (if counted then 1 else 0) && |pools| == |old(pools)|
      ensures f.Some? ==> old(pools)[p].fibers == pools[p].fibers + [f.value]
      ensures counted ==> pools[p].total == old(pools)[p].total + 1 && pools[p].fibers == [] == old(pools)[p].fibers
      ensures counted ==> old(pools)[p].highWater <= pools[p].highWater && pools[p].highWater in {old(pools)[p].highWater, pools[p].total}
      ensures var q := old(pools)[p];
        if q.fibers != [] then
          && f == Some(Top(q)) && !counted && pools == old(pools)[p := Popped(q)]
          && home == old(home)[f.value := InUse] && f.value in old(home) && old(home)[f.value] == InPool(p)
        else
          && f == None && counted == (!bounded || q.total < q.allocMax) && home == old(home)
          && pools == if counted then old(pools)[p := Counted(q)] else old(pools)
    {
      hide Inv;
      counted := false;
      f := TryPop(p);
      if f == None && (!bounded || pools[p].total < pools[p].allocMax) {
        CountInv(pools, home, preallocated - reserved, p);
        var q := pools[p];
        var total := q.total + 1;
        pools := pools[p := q.(total := total, highWater := if q.highWater < total then total else q.highWater)];
        reserved, counted := reserved + 1, true;
      }
    }

    /** Without a lock: the heap is asked for a fiber that has been counted. */
    method AskHeap() returns (f: Option<nat>)
      requires Valid() && reserved > 0
      modifies this`home, this`nextFiber, this`reserved
      ensures Valid()
      ensures f == None ==> home == old(home) && nextFiber == old(nextFiber) && reserved == old(reserved)
      ensures f.Some? ==>
        && f.value == old(nextFiber) && f.value !in old(home) && nextFiber == old(nextFiber) + 1
        && home == old(home)[f.value := InUse] && reserved == old(reserved) - 1
    {
      hide Inv;
      f := AllocateFromHeap();
      if f.Some? {
        HeapInv(pools, home, preallocated - reserved, f.value);
        home, reserved := home[f.value := InUse], reserved - 1;
      }
    }

    /** The heap had no memory: the count is taken back. */
    method Uncount(p: nat)
      requires Valid() && p < |pools| && reserved > 0
      modifies this`pools, this`reserved
      ensures Valid() && reserved == old(reserved) - 1
      ensures pools == old(pools)[p := old(pools)[p].(total := old(pools)[p].total - 1)]
    {
      UncountInv(pools, home, preallocated - reserved, p);
      hide Inv;
      pools := pools[p := pools[p].(total := pools[p].total - 1)];
      reserved := reserved - 1;
    }

    // ------------------------------------------------------------ taking

    /** Without going to the heap: from the nearest pool that has a fiber. */
    method TryAllocateFromPoolRecursive(p: nat) returns (f: Option<nat>)
      requires Valid() && p < |pools| && PoolsOk(pools)
      modifies this`pools, this`home
      ensures Valid() && |pools| == |old(pools)|
      ensures f == None <==> FirstStocked(old(pools), p) == None
      ensures f == None ==> pools == old(pools) && home == old(home)
      ensures f.Some? ==>
        var q := FirstStocked(old(pools), p).value;
        && f.value == Top(old(pools)[q])
        && pools == old(pools)[q := Popped(old(pools)[q])] && home == old(home)[f.value := InUse]
      decreases p
    {
      assert PoolOk(pools[p], p);
      f := TryPop(p);
      if f == None && pools[p].parent.Some? {
        f := TryAllocateFromPoolRecursive(pools[p].parent.value);
      }
    }

    /** The general allocation: this pool, then the heap on behalf of this pool, then the same from
        the parent. */
    method Allocate(p: nat) returns (f: Option<nat>)
      requires Valid() && p < |pools|
      modifies this`pools, this`home, this`nextFiber, this`reserved
      ensures Valid() && reserved == old(reserved) && |pools| == |old(pools)|
      ensures AllocOutcome(old(pools), pools, p, f, old(nextFiber))
      ensures f == None ==> home == old(home)
      ensures f.Some? ==> home == old(home)[f.value := InUse] && f.value !in old(InUseSet(home))
      decreases p
    {
      assert PoolOk(pools[p], p);
      hide Inv, Valid, InUseSet;
      f := FromPoolOrHeap(p, false);
      if f == None && pools[p].parent.Some? {
        f := Allocate(pools[p].parent.value);
      }
    }

    /** What an allocation does for one pool: its top fiber, or one from the heap if the limit allows it. */
    method FromPoolOrHeap(p: nat, bounded: bool) returns (f: Option<nat>)
      requires Valid() && p < |pools|
      modifies this`pools, this`home, this`nextFiber, this`reserved
      ensures Valid() && reserved == old(reserved)
      ensures var q := old(pools)[p];
        if q.fibers != [] then f == Some(Top(q)) && pools == old(pools)[p := Popped(q)]
        else if bounded && q.total >= q.allocMax then f == None && pools == old(pools) && nextFiber == old(nextFiber)
        else if f == None then pools == old(pools)[p := Uncounted(q)] && nextFiber == old(nextFiber)
        else f.value == old(nextFiber) && pools == old(pools)[p := Counted(q)]
      ensures f == None ==> home == old(home)
      ensures f.Some? ==> home == old(home)[f.value := InUse] && f.value !in old(InUseSet(home))
    {
      hide Inv, Valid;
      ghost var q := pools[p];
      var counted;
      f, counted := Look(p, bounded);
      if counted {
        f := FromHeap(p, q);
      }
    }

    /** Ask the heap for the fiber that pool `p`, which was `q`, has counted, and undo the count if it has none. */
    method FromHeap(p: nat, ghost q: Pool) returns (f: Option<nat>)
      requires Valid() && p < |pools| && reserved > 0 && pools[p] == Counted(q)
      modifies this`pools, this`home, this`nextFiber, this`reserved
      ensures Valid() && reserved == old(reserved) - 1
      ensures f == None ==> nextFiber == old(nextFiber) && home == old(home) && pools == old(pools)[p := Uncounted(q)]
      ensures f.Some? ==>
        f.value == old(nextFiber) && f.value !in old(home) && pools == old(pools) && home == old(home)[f.value := InUse]
    {
      hide Inv, Valid;
      f := AskHeap();
      if f == None {
        Uncount(p);
      }
    }

    /** As `Allocate`, but all pools are looked through before the heap, which is asked only below the
        pool's limit. */
    method AllocateWithTryAllocateFromPool(p: nat) returns (f: Option<nat>)
      requires Valid() && p < |pools|
      modifies this`pools, this`home, this`nextFiber, this`reserved
      ensures Valid() && reserved == old(reserved) && |pools| == |old(pools)|
      ensures old(FirstStocked(pools, p)).Some? ==>
        var q := old(FirstStocked(pools, p)).value; f == Some(Top(old(pools)[q])) && pools == old(pools)[q := Popped(old(pools)[q])]
      ensures old(FirstStocked(pools, p)) == None ==>
        var q := old(pools)[p];
        var r := if q.total < q.allocMax then old(pools)[p := Uncounted(q)] else old(pools);
        || (q.total < q.allocMax && f == Some(old(nextFiber)) && pools == old(pools)[p := Counted(q)])
        || (if q.parent.Some? && q.parent.value < p then AllocOutcome(r, pools, q.parent.value, f, old(nextFiber)) else f == None && pools == r)
      ensures f == None ==> home == old(home)
      ensures f.Some? ==> home == old(home)[f.value := InUse] && f.value !in old(InUseSet(home))
    {
      assert PoolOk(pools[p], p);
      f := TryAllocateFromPoolRecursive(p);
      if f.Some? {
        NotInUseYet(old(pools), old(home), FirstStocked(old(pools), p).value);
        return;
      }
      assert pools[p].fibers == [];
      hide Inv, Valid, InUseSet, FirstStocked, AllocOutcome;
      f := FromPoolOrHeap(p, true);
      if f == None && pools[p].parent.Some? {
        f := Allocate(pools[p].parent.value);
      }
    }

    // ------------------------------------------------------------ giving back

    /** One lock acquisition: grab up to ten fibers above the threshold, and put the returned one
        back when the pool is low enough.  The buffered fibers are then freed. */
    method FreeBatch(p: nat, numToKeep: nat, fiberToReturn: Option<nat>) returns (done: bool)
      requires Valid() && p < |pools| && (fiberToReturn.Some? ==> numToKeep < pools[p].maxSize && Held(fiberToReturn.value))
      modifies this`pools, this`home, this`freed
      ensures Valid()
      ensures var q := old(pools)[p]; var m := |q.fibers| - Batch(|q.fibers|, numToKeep);
        && done == (m <= numToKeep) && (m == |q.fibers| || m >= numToKeep) && (m == |q.fibers| - 10 || m <= numToKeep)
        && pools == old(pools)[p := Trimmed(q, m, if done then fiberToReturn else None)]
        && freed == old(freed) + Elems(q.fibers[m..])
      ensures InUseSet(home) == old(InUseSet(home)) - (if done then Returned(fiberToReturn) else {})
      ensures !done && fiberToReturn.Some? ==> Held(fiberToReturn.value)
    {
      hide Inv;
      ghost var q := pools[p];
      ghost var m := |q.fibers| - Batch(|q.fibers|, numToKeep);
      var fibersToFree := Grab(p, numToKeep);
      SameSet(q.fibers[m..], fibersToFree);
      ghost var used := old(InUseSet(home));
      assert used + Elems(fibersToFree) - Elems(fibersToFree) == used;
      Discount(p, fibersToFree);
      assert InUseSet(home) == used;
      hide InUseSet;
      assert q.fibers[..m] + [] == q.fibers[..m];
      assert pools == old(pools)[p := Trimmed(q, m, None)];
      done := false;
      if |pools[p].fibers| <= numToKeep {
        if fiberToReturn.Some? {
          Push(p, fiberToReturn.value);
        }
        done := true;
      }
    }

    /** A fiber that its holder may give back. */
    ghost predicate Held(f: nat)
      reads this`home
    {
      f in home && home[f] == InUse
    }

    method Push(p: nat, f: nat)
      requires Valid() && p < |pools| && |pools[p].fibers| < pools[p].maxSize && Held(f)
      modifies this`pools, this`home
      ensures Valid() && pools == old(pools)[p := Pushed(old(pools)[p], f)] && home == old(home)[f := InPool(p)]
      ensures InUseSet(home) == old(InUseSet(home)) - {f}
    {
      InUseLess(home, f, p);
      GiveInv(pools, home, preallocated - reserved, p, f);
      hide Inv;
      pools := pools[p := pools[p].(fibers := pools[p].fibers + [f])];
      home := home[f := InPool(p)];
    }

    /** Fibers taken out to be freed: they leave the books together with the count. */
    method Discount(p: nat, fs: seq<nat>)
      requires Valid() && p < |pools| && (forall i :: 0 <= i < |fs| ==> Held(fs[i])) && Distinct(fs)
      modifies this`pools, this`home, this`freed
      ensures Valid() && pools == old(pools)[p := old(pools)[p].(total := old(pools)[p].total - |fs|)]
      ensures home == old(home) - Elems(fs) && freed == old(freed) + Elems(fs)
      ensures InUseSet(home) == old(InUseSet(home)) - Elems(fs)
    {
      hide Inv, Distinct;
      InUseWithoutAll(home, Elems(fs));
      FreeAllInv(pools, home, preallocated - reserved, p, fs);
      ghost var gone := Elems(fs);
      assert forall f :: f in gone ==> f in home;
      hide Elems, InUseSet;
      pools := pools[p := pools[p].(total := pools[p].total - |fs|)];
      home := home - gone;
      freed := freed + gone;
    }

    /** The fibers that one lock acquisition takes out, top first. */
    method Grab(p: nat, numToKeep: nat) returns (fibersToFree: seq<nat>)
      requires Valid() && p < |pools|
      modifies this`pools, this`home
      ensures Valid()
      ensures var q := old(pools)[p]; var m := |q.fibers| - Batch(|q.fibers|, numToKeep);
        && pools == old(pools)[p := q.(fibers := q.fibers[..m])] && fibersToFree == Reversed(q.fibers[m..])
      ensures Distinct(fibersToFree) && forall i :: 0 <= i < |fibersToFree| ==> Held(fibersToFree[i])
      ensures forall f :: old(Held(f)) ==> Held(f) && f !in fibersToFree
      ensures InUseSet(home) == old(InUseSet(home)) + Elems(fibersToFree) && InUseSet(home) - Elems(fibersToFree) == old(InUseSet(home))
    {
      hide Inv, Reversed;
      ghost var q := pools[p];
      fibersToFree := [];
      ReversedNone();
      ghost var m := |q.fibers|;
      assert q.fibers[..m] == q.fibers && q.fibers[m..] == [];
      while |pools[p].fibers| > numToKeep && |fibersToFree| < BATCH
        invariant Valid() && 0 <= m <= |q.fibers| && |fibersToFree| == |q.fibers| - m <= Batch(|q.fibers|, numToKeep)
        invariant pools == old(pools)[p := q.(fibers := q.fibers[..m])] && fibersToFree == Reversed(q.fibers[m..])
        invariant Distinct(fibersToFree) && forall i :: 0 <= i < |fibersToFree| ==> Held(fibersToFree[i])
        invariant forall f :: old(Held(f)) ==> Held(f) && f !in fibersToFree
        invariant InUseSet(home) == old(InUseSet(home)) + Elems(fibersToFree)
        decreases BATCH - |fibersToFree|
      {
        GrabStep(q.fibers, m);
        ghost var was := home;
        var f := Pop(p);
        InUseMore(was, f);
        ElemsMore(fibersToFree, f);
        fibersToFree := fibersToFree + [f];
        m := m - 1;
      }
    }

    /** Free fibers, ten at a time, until no more than `numToKeep` are left, and put one back. */
    method FreeFibersFromPool(p: nat, numToKeep: nat, fiberToReturn: Option<nat>)
      requires Valid() && p < |pools| && (fiberToReturn.Some? ==> numToKeep < pools[p].maxSize && Held(fiberToReturn.value))
      modifies this`pools, this`home, this`freed
      ensures Valid()
      ensures var q := old(pools)[p]; var m := if |q.fibers| < numToKeep then |q.fibers| else numToKeep;
        && pools == old(pools)[p := Trimmed(q, m, fiberToReturn)] && freed == old(freed) + Elems(q.fibers[m..])
        && pools[p].fibers == q.fibers[..m] + (if fiberToReturn.Some? then [fiberToReturn.value] else [])
        && pools[p].total == q.total - (|q.fibers| - m)
      ensures InUseSet(home) == old(InUseSet(home)) - Returned(fiberToReturn)
    {
      hide Inv;
      ghost var q := pools[p];
      var last := false;
      assert Elems([]) == {};
      hide Elems;
      ghost var m: nat := |q.fibers|;
      assert q.fibers[m..] == [] && Trimmed(q, m, None) == q;
      hide Trimmed, Valid, InUseSet, Held, Returned, Batch;
      while !last
        invariant Valid() && m <= |q.fibers| && (|q.fibers| >= numToKeep ==> m >= numToKeep) && (|q.fibers| < numToKeep ==> m == |q.fibers|)
        invariant pools == old(pools)[p := Trimmed(q, m, if last then fiberToReturn else None)]
        invariant freed == old(freed) + Elems(q.fibers[m..])
        invariant last ==> m <= numToKeep
        invariant InUseSet(home) == old(InUseSet(home)) - (if last then Returned(fiberToReturn) else {})
        invariant !last && fiberToReturn.Some? ==> Held(fiberToReturn.value)
        decreases !last, m
      {
        BatchFacts(m, numToKeep);
        last := TrimFurther(p, numToKeep, fiberToReturn, q, m, old(pools), old(freed));
        m := m - Batch(m, numToKeep);
      }
    }

    /** One batch more, from a pool cut down to its lowest `m` fibers. */
    method TrimFurther(p: nat, numToKeep: nat, fiberToReturn: Option<nat>, ghost q: Pool, ghost m: nat,
                       ghost pools0: seq<Pool>, ghost freed0: set<nat>) returns (last: bool)
      requires Valid() && p < |pools0| && m <= |q.fibers| && pools == pools0[p := Trimmed(q, m, None)]
      requires freed == freed0 + Elems(q.fibers[m..]) && Batch(m, numToKeep) <= m
      requires fiberToReturn.Some? ==> numToKeep < q.maxSize && Held(fiberToReturn.value)
      modifies this`pools, this`home, this`freed
      ensures Valid()
      ensures var k := m - Batch(m, numToKeep);
        && last == (k <= numToKeep) && pools == pools0[p := Trimmed(q, k, if last then fiberToReturn else None)]
        && freed == freed0 + Elems(q.fibers[k..])
      ensures InUseSet(home) == old(InUseSet(home)) - (if last then Returned(fiberToReturn) else {})
      ensures !last && fiberToReturn.Some? ==> Held(fiberToReturn.value)
    {
      hide Inv, Trimmed, Valid, InUseSet, Elems, Held, Returned, Batch;
      ghost var n := Batch(m, numToKeep);
      TrimTwice(q, m, n);
      last := FreeBatch(p, numToKeep, fiberToReturn);
      TrimAgain(q, m, n, if last then fiberToReturn else None);
    }

    /** One lock acquisition: into the pool, if it has room. */
    method Return(p: nat, f: nat) returns (done: bool)
      requires Valid() && p < |pools| && Held(f)
      modifies this`pools, this`home
      ensures Valid() && done == (|old(pools)[p].fibers| < old(pools)[p].maxSize)
      ensures done ==> pools == old(pools)[p := Pushed(old(pools)[p], f)] && InUseSet(home) == old(InUseSet(home)) - {f}
      ensures done ==> pools[p].fibers == old(pools)[p].fibers + [f] && pools[p].total == old(pools)[p].total
      ensures !done ==> pools == old(pools) && home == old(home) && Held(f)
    {
      hide Inv, Valid, InUseSet, Held;
      done := |pools[p].fibers| < pools[p].maxSize;
      if done {
        Push(p, f);
      }
    }

    /** The last reference is gone: into the pool, after making room if it is full. */
    method DeallocateSelf(p: nat, f: nat)
      requires Valid() && p < |pools| && f in home && home[f] == InUse
      modifies this`pools, this`home, this`freed
      ensures Valid() && |old(pools)[p].fibers| <= old(pools)[p].maxSize && 0 < old(pools)[p].maxSize
      ensures InUseSet(home) == old(InUseSet(home)) - {f}
      ensures var q := old(pools)[p];
        if |q.fibers| < q.maxSize then pools == old(pools)[p := Pushed(q, f)] && freed == old(freed)
        else pools == old(pools)[p := WithTop(q, f)] && freed == old(freed) + {Top(q)}
      ensures var q, q1 := old(pools)[p], pools[p];
        if |q.fibers| < q.maxSize then q1.fibers == q.fibers + [f] && q1.total == q.total
        else q1.fibers == q.fibers[..q.maxSize - 1] + [f] && q1.total == q.total - 1 && freed == old(freed) + {q.fibers[q.maxSize - 1]}
    {
      assert PoolOk(pools[p], p);
      assert Held(f);
      hide Inv, Valid, Pushed, Trimmed, Elems, InUseSet, Top, Held, WithTop;
      var done := Return(p, f);
      if !done {
        ReplaceTop(p, f);
        TopReplaced(old(pools)[p], f);
      }
    }

    method ReplaceTop(p: nat, f: nat)
      requires Valid() && p < |pools| && |pools[p].fibers| == pools[p].maxSize > 0 && Held(f)
      modifies this`pools, this`home, this`freed
      ensures Valid() && InUseSet(home) == old(InUseSet(home)) - {f}
      ensures var q := old(pools)[p];
        pools == old(pools)[p := WithTop(q, f)] && freed == old(freed) + {Top(q)}
    {
      hide Inv, Valid, Trimmed, Elems, InUseSet, Top, Held;
      TrimFull(pools[p], f);
      FreeFibersFromPool(p, pools[p].maxSize - 1, Some(f));
    }

    /** Fill the parent with what is above the threshold; a negative count goes along.  Nothing happens
        when the parent is full. */
    method MoveFibersToParentPool(p: nat, numToKeep: nat)
      requires Valid() && p < |pools| && pools[p].parent.Some?
      modifies this`pools, this`home
      ensures Valid() && |pools| == |old(pools)| && old(pools)[p].parent.value < p && InUseSet(home) == old(InUseSet(home))
      ensures var par := old(pools)[p].parent.value;
        var q, r, q1, r1 := old(pools)[p], old(pools)[par], pools[p], pools[par];
        if |r.fibers| >= r.maxSize then pools == old(pools)
        else
          && pools == old(pools)[p := q1][par := r1] && Moved(q, r, q1.(total := q.total), r1.(total := r.total), numToKeep)
          && q1.total == (if q.total < 0 then 0 else q.total)
          && r1.total == (if q.total < 0 then r.total + q.total else r.total)
    {
      assert PoolOk(pools[p], p);
      var par := pools[p].parent.value;
      if |pools[par].fibers| >= pools[par].maxSize {
        return;
      }
      hide Inv, Valid, InUseSet;
      FillParent(p, par, numToKeep);
      hide Moved;
      MoveSurplus(p, par);
    }

    method MoveSurplus(p: nat, par: nat)
      requires Valid() && p < |pools| && par < p && pools[p].parent == Some(par)
      modifies this`pools
      ensures Valid()
      ensures var q, r := old(pools)[p], old(pools)[par];
        pools == old(pools)[p := q.(total := if q.total < 0 then 0 else q.total)]
                           [par := r.(total := if q.total < 0 then r.total + q.total else r.total)]
    {
      hide Inv;
      if pools[p].total < 0 {
        SurplusInv(pools, home, preallocated - reserved, p, par);
        pools := pools[p := pools[p].(total := 0)][par := pools[par].(total := pools[par].total + pools[p].total)];
      }
    }

    /** The loop that moves them, top first. */
    method FillParent(p: nat, par: nat, numToKeep: nat)
      requires Valid() && p < |pools| && par < |pools| && p != par
      modifies this`pools, this`home
      ensures Valid() && InUseSet(home) == old(InUseSet(home))
      ensures |pools| == |old(pools)| && pools == old(pools)[p := pools[p]][par := pools[par]]
      ensures Moved(old(pools)[p], old(pools)[par], pools[p], pools[par], numToKeep)
    {
      hide Inv, Given, Received, InUseSet;
      ghost var q, r := pools[p], pools[par];
      ghost var k: nat := 0;
      GivenNone(q, r);
      assert pools == pools[p := q][par := r];
      while |pools[par].fibers| < pools[par].maxSize && |pools[p].fibers| > numToKeep
        invariant Valid() && k <= |q.fibers| && |pools| == |old(pools)| && InUseSet(home) == old(InUseSet(home))
        invariant pools == old(pools)[p := Given(q, k)][par := Received(r, q, k)]
        invariant k > 0 ==> |pools[p].fibers| >= numToKeep && |pools[par].fibers| <= r.maxSize
        decreases |pools[p].fibers|
      {
        GivenOneMore(q, r, k);
        MoveOne(p, par);
        k := k + 1;
        GivenFacts(q, r, k);
        assert pools == old(pools)[p := Given(q, k)][par := Received(r, q, k)];
      }
      GivenFacts(q, r, k);
      assert pools[p] == Given(q, k) && pools[par] == Received(r, q, k);
      GivenMoved(q, r, k, numToKeep);
    }

    method MoveOne(p: nat, par: nat)
      requires Valid() && p < |pools| && par < |pools| && p != par && pools[p].fibers != [] && |pools[par].fibers| < pools[par].maxSize
      modifies this`pools, this`home
      ensures Valid() && pools == old(pools)[p := Popped(old(pools)[p])][par := Pushed(old(pools)[par], Top(old(pools)[p]))]
      ensures InUseSet(home) == old(InUseSet(home))
    {
      PooledNotInUse(pools, home, p, par);
      MoveInv(pools, home, preallocated - reserved, p, par);
      var f := Top(pools[p]);
      assert f in home;
      hide Inv, InUseSet;
      pools := pools[p := Popped(pools[p])][par := Pushed(pools[par], f)];
      home := home[f := InPool(par)];
    }
  }

  /** A pool after giving its `k` top fibers away. */
  function Given(q: Pool, k: nat): Pool
    requires k <= |q.fibers|
  {
    q.(fibers := q.fibers[..|q.fibers| - k])
  }

  /** And the pool that got them, one by one. */
  function Received(r: Pool, q: Pool, k: nat): Pool
    requires k <= |q.fibers|
  {
    r.(fibers := r.fibers + Reversed(q.fibers[|q.fibers| - k..]))
  }

  lemma GivenNone(q: Pool, r: Pool)
    ensures Given(q, 0) == q && Received(r, q, 0) == r
  {
  }

  lemma GivenFacts(q: Pool, r: Pool, k: nat)
    requires k <= |q.fibers|
    ensures |Given(q, k).fibers| == |q.fibers| - k && |Received(r, q, k).fibers| == |r.fibers| + k
    ensures Given(q, k) == q.(fibers := Given(q, k).fibers) && Received(r, q, k) == r.(fibers := Received(r, q, k).fibers)
  {
  }

  lemma GivenMoved(q: Pool, r: Pool, k: nat, keep: nat)
    requires k <= |q.fibers| && (k > 0 ==> |q.fibers| - k >= keep && |r.fibers| + k <= r.maxSize)
    requires |r.fibers| + k >= r.maxSize || |q.fibers| - k <= keep
    ensures Moved(q, r, Given(q, k), Received(r, q, k), keep)
  {
  }

  lemma GivenOneMore(q: Pool, r: Pool, k: nat)
    requires k <= |q.fibers|
    ensures |Given(q, k).fibers| == |q.fibers| - k && |Received(r, q, k).fibers| == |r.fibers| + k
    ensures Given(q, k) == q.(fibers := Given(q, k).fibers) && Received(r, q, k) == r.(fibers := Received(r, q, k).fibers)
    ensures k < |q.fibers| ==>
      Popped(Given(q, k)) == Given(q, k + 1) && Pushed(Received(r, q, k), Top(Given(q, k))) == Received(r, q, k + 1)
  {
    if k < |q.fibers| {
      var f := Top(Given(q, k));
      assert q.fibers[|q.fibers| - k - 1..] == [f] + q.fibers[|q.fibers| - k..];
      ReversedCons(f, q.fibers[|q.fibers| - k..]);
    }
  }

  // ---------------------------------------------------------------- whole runs

  /** No fiber is in two slots, and none in a slot is in use. */
  lemma OneSlot(pools: seq<Pool>, home: map<nat, Home>, ahead: int, p: nat, i: nat, q: nat, j: nat)
    requires Inv(pools, home, ahead) && p < |pools| && i < |pools[p].fibers| && q < |pools| && j < |pools[q].fibers|
    ensures pools[p].fibers[i] == pools[q].fibers[j] ==> p == q && i == j
    ensures pools[p].fibers[i] !in InUseSet(home)
  {
    assert home[pools[p].fibers[i]] == InPool(p) && home[pools[q].fibers[j]] == InPool(q);
  }

  /** What workers do with the pools, one lock acquisition or one question to the heap at a time: the
      routines above are sequences of these, and between two of them other workers may do anything. */
  datatype Call =
    | NewPool(parent: Option<nat>, bufferSize: nat, allocMax: int)
    | Pick(p: nat) | Search(p: nat, bounded: bool) | Ask(p: nat) | Undo(p: nat)
    | Give(p: nat, f: nat) | Trim(p: nat, numToKeep: nat, back: Option<nat>) | MoveUp(p: nat, numToKeep: nat)

  /** A fiber, a fiber counted that the heap is to give, success, or nothing. */
  datatype Answer = Nothing | Fiber(f: nat) | Reserved | Done

  /** What workers have in hand: fibers, and counts that they have made at pools and not asked the heap for
      with success, or taken back. */
  datatype Hands = Hands(out: set<nat>, owed: multiset<nat>)

  /** How many pools there are after some calls: a pool has a size, and a parent that is there. */
  function PoolsAfter(call: Call, n: nat): nat {
    if call.NewPool? && 0 < call.bufferSize && (call.parent.Some? ==> call.parent.value < n) then n + 1 else n
  }

  function PoolsMade(calls: seq<Call>): nat {
    if calls == [] then 0 else PoolsAfter(calls[|calls| - 1], PoolsMade(calls[..|calls| - 1]))
  }

  /** What workers have in hand after a call and its answer. */
  function HandsAfter(call: Call, got: Answer, h: Hands): Hands {
    match call
    case Pick(_) => if got.Fiber? then h.(out := h.out + {got.f}) else h
    case Search(p, _) =>
      if got.Fiber? then h.(out := h.out + {got.f}) else if got == Reserved then h.(owed := h.owed + multiset{p}) else h
    case Ask(p) => if got.Fiber? then Hands(h.out + {got.f}, h.owed - multiset{p}) else h
    case Undo(p) => if got == Done then h.(owed := h.owed - multiset{p}) else h
    case Give(_, f) => if got == Done then h.(out := h.out - {f}) else h
    case Trim(_, _, back) => if got == Done then h.(out := h.out - Returned(back)) else h
    case _ => h
  }

  /** After calls and their answers. */
  function InHand(calls: seq<Call>, got: seq<Answer>): Hands
    requires |calls| == |got|
    decreases |calls|
  {
    if calls == [] then Hands({}, multiset{})
    else var n := |calls| - 1; HandsAfter(calls[n], got[n], InHand(calls[..n], got[..n]))
  }

  /** No fiber is handed out that somebody has, the heap gives only what has been counted, and only what
      one has can be given back. */
  predicate Sensible(call: Call, got: Answer, h: Hands) {
    && (got.Fiber? ==> (call.Pick? || call.Search? || (call.Ask? && call.p in h.owed)) && got.f !in h.out)
    && (got == Reserved ==> call.Search?)
    && (got == Done ==>
          match call
          case Undo(p) => p in h.owed
          case Give(_, f) => f in h.out
          case Trim(_, _, back) => Returned(back) <= h.out
          case _ => false)
  }

  predicate AllSensible(calls: seq<Call>, got: seq<Answer>)
    requires |got| <= |calls|
  {
    forall n :: 0 <= n < |got| ==> Sensible(calls[n], got[n], InHand(calls[..n], got[..n]))
  }

  /** The books of those who have fibers and counts in hand. */
  ghost predicate Booked(s: FiberSystem, h: Hands)
    reads s
  {
    h.out == InUseSet(s.home) && |h.owed| == s.reserved
  }

  /** A call by workers that keep such books; one that makes no sense is not made. */
  method Perform(s: FiberSystem, call: Call, h: Hands) returns (got: Answer)
    requires s.Valid() && Booked(s, h)
    modifies s
    ensures s.Valid() && |s.pools| == PoolsAfter(call, |old(s.pools)|)
    ensures Sensible(call, got, h) && Booked(s, HandsAfter(call, got, h))
  {
    hide Inv, InUseSet, FiberSystem.Valid;
    got := Nothing;
    match call {
      case NewPool(parent, bufferSize, allocMax) =>
        if 0 < bufferSize && (parent.Some? ==> parent.value < |s.pools|) {
          var p := s.PoolInit(parent, bufferSize, allocMax);
        }
      case Pick(p) => if p < |s.pools| { got := PerformPick(s, p, h); }
      case Search(p, bounded) => if p < |s.pools| { got := PerformSearch(s, p, bounded, h); }
      case Ask(p) => if p in h.owed { got := PerformAsk(s, p, h); }
      case Undo(p) =>
        if p < |s.pools| && p in h.owed {
          s.Uncount(p);
          got := Done;
        }
      case Give(p, f) =>
        if p < |s.pools| && f in h.out {
          HeldIsInUse(s.home, f);
          var done := s.Return(p, f);
          if done { got := Done; }
        }
      case Trim(p, numToKeep, back) => if p < |s.pools| { got := PerformTrim(s, p, numToKeep, back, h); }
      case MoveUp(p, numToKeep) =>
        if p < |s.pools| && s.pools[p].parent.Some? { s.MoveFibersToParentPool(p, numToKeep); }
    }
  }

  method PerformPick(s: FiberSystem, p: nat, h: Hands) returns (got: Answer)
    requires s.Valid() && Booked(s, h) && p < |s.pools|
    modifies s
    ensures s.Valid() && |s.pools| == |old(s.pools)|
    ensures Sensible(Pick(p), got, h) && Booked(s, HandsAfter(Pick(p), got, h))
  {
    hide Inv, FiberSystem.Valid;
    var f := s.TryPop(p);
    got := if f.Some? then Fiber(f.value) else Nothing;
    if f.Some? { NowUsed(s.home, old(s.home), f.value); }
  }

  method PerformSearch(s: FiberSystem, p: nat, bounded: bool, h: Hands) returns (got: Answer)
    requires s.Valid() && Booked(s, h) && p < |s.pools|
    modifies s
    ensures s.Valid() && |s.pools| == |old(s.pools)|
    ensures Sensible(Search(p, bounded), got, h) && Booked(s, HandsAfter(Search(p, bounded), got, h))
  {
    hide Inv, FiberSystem.Valid;
    var f, counted := s.Look(p, bounded);
    got := if f.Some? then Fiber(f.value) else if counted then Reserved else Nothing;
    if f.Some? { NowUsed(s.home, old(s.home), f.value); }
  }

  method PerformAsk(s: FiberSystem, p: nat, h: Hands) returns (got: Answer)
    requires s.Valid() && Booked(s, h) && p in h.owed
    modifies s
    ensures s.Valid() && |s.pools| == |old(s.pools)|
    ensures Sensible(Ask(p), got, h) && Booked(s, HandsAfter(Ask(p), got, h))
  {
    hide Inv, FiberSystem.Valid;
    assert |h.owed| > 0;
    var f := s.AskHeap();
    got := if f.Some? then Fiber(f.value) else Nothing;
    if f.Some? { NowUsed(s.home, old(s.home), f.value); }
  }

  method PerformTrim(s: FiberSystem, p: nat, numToKeep: nat, back: Option<nat>, h: Hands) returns (got: Answer)
    requires s.Valid() && Booked(s, h) && p < |s.pools|
    modifies s
    ensures s.Valid() && |s.pools| == |old(s.pools)|
    ensures Sensible(Trim(p, numToKeep, back), got, h) && Booked(s, HandsAfter(Trim(p, numToKeep, back), got, h))
  {
    hide Inv, FiberSystem.Valid, InUseSet;
    got := Nothing;
    if back.Some? ==> back.value in h.out && numToKeep < s.pools[p].maxSize {
      if back.Some? { HeldIsInUse(s.home, back.value); }
      var done := s.FreeBatch(p, numToKeep, back);
      if done { got := Done; }
    }
  }

  lemma NowUsed(home: map<nat, Home>, was: map<nat, Home>, f: nat)
    requires home == was[f := InUse]
    ensures InUseSet(home) == InUseSet(was) + {f}
  {
  }

  lemma HeldIsInUse(home: map<nat, Home>, f: nat)
    requires f in InUseSet(home)
    ensures f in home && home[f] == InUse
  {
  }

  /** Fiber `f` is in slot `i` of pool `p`. */
  predicate InSlot(pools: seq<Pool>, f: int, p: int, i: int) {
    0 <= p < |pools| && 0 <= i < |pools[p].fibers| && pools[p].fibers[i] == f
  }

  /** After any steps of any workers, in any order: no fiber was handed out while somebody had it; the
      counts of all pools and the fibers allocated ahead of time account for the fibers in pools, those in
      hand, and those still to come from the heap; no pool is over-full or counts above its high-water
      mark; and every fiber the heap ever gave is in somebody's hand, in exactly one slot, or freed. */
  method AnyRun(calls: seq<Call>) returns (s: FiberSystem, got: seq<Answer>)
    ensures |got| == |calls| && |s.pools| == PoolsMade(calls) && AllSensible(calls, got)
    ensures var h := InHand(calls, got);
      && SumTotal(s.pools) + s.preallocated == SumSize(s.pools) + |h.out| + |h.owed|
      && (forall f: nat :: f < s.nextFiber <==> f in h.out || f in s.freed || exists p, i :: InSlot(s.pools, f, p, i))
      && h.out !! s.freed && forall f, p, i :: InSlot(s.pools, f, p, i) ==> f !in h.out && f !in s.freed
    ensures forall p :: 0 <= p < |s.pools| ==>
      && |s.pools[p].fibers| <= s.pools[p].maxSize && s.pools[p].total <= s.pools[p].highWater
      && (s.pools[p].parent.Some? ==> s.pools[p].parent.value < p)
    ensures forall f, p, i, q, j :: InSlot(s.pools, f, p, i) && InSlot(s.pools, f, q, j) ==> p == q && i == j
  {
    s := new FiberSystem();
    got := [];
    var h := Hands({}, multiset{});
    assert Booked(s, h);
    var n := 0;
    while n < |calls|
      invariant 0 <= n <= |calls| && |got| == n && s.Valid() && fresh(s)
      invariant Booked(s, h) && h == InHand(calls[..n], got) && |s.pools| == PoolsMade(calls[..n])
      invariant AllSensible(calls, got)
    {
      hide FiberSystem.Valid, Booked, Sensible, AllSensible, HandsAfter, PoolsAfter, PoolsMade, InHand, SumTotal, SumSize;
      var answer := Perform(s, calls[n], h);
      h := HandsAfter(calls[n], answer, h);
      MoreSensible(calls, got, answer);
      MorePools(calls, n);
      MoreInHand(calls, got, answer);
      got := got + [answer];
      n := n + 1;
    }
    assert calls[..n] == calls;
    RunFacts(s);
  }

  lemma MoreSensible(calls: seq<Call>, got: seq<Answer>, more: Answer)
    requires |got| < |calls| && AllSensible(calls, got) && Sensible(calls[|got|], more, InHand(calls[..|got|], got))
    ensures AllSensible(calls, got + [more])
  {
    hide Sensible, InHand;
    var longer := got + [more];
    assert longer[..|got|] == got;
    assert forall k :: 0 <= k < |got| ==> longer[..k] == got[..k];
  }

  lemma MorePools(calls: seq<Call>, n: nat)
    requires n < |calls|
    ensures PoolsMade(calls[..n + 1]) == PoolsAfter(calls[n], PoolsMade(calls[..n]))
  {
    hide PoolsAfter;
    assert calls[..n + 1][..n] == calls[..n];
  }

  lemma MoreInHand(calls: seq<Call>, got: seq<Answer>, more: Answer)
    requires |got| < |calls|
    ensures InHand(calls[..|got| + 1], got + [more]) == HandsAfter(calls[|got|], more, InHand(calls[..|got|], got))
  {
    hide HandsAfter;
    var n, longer, some := |got|, got + [more], calls[..|got| + 1];
    assert some[..n] == calls[..n] && longer[..n] == got;
  }

  lemma RunFacts(s: FiberSystem)
    requires s.Valid()
    ensures SumTotal(s.pools) + s.preallocated == SumSize(s.pools) + |InUseSet(s.home)| + s.reserved
    ensures forall p :: 0 <= p < |s.pools| ==>
      && |s.pools[p].fibers| <= s.pools[p].maxSize && s.pools[p].total <= s.pools[p].highWater
      && (s.pools[p].parent.Some? ==> s.pools[p].parent.value < p)
    ensures forall f: nat :: f < s.nextFiber <==> f in InUseSet(s.home) || f in s.freed || exists p, i :: InSlot(s.pools, f, p, i)
    ensures InUseSet(s.home) !! s.freed
    ensures forall f, p, i :: InSlot(s.pools, f, p, i) ==> f !in InUseSet(s.home) && f !in s.freed
    ensures forall f, p, i, q, j :: InSlot(s.pools, f, p, i) && InSlot(s.pools, f, q, j) ==> p == q && i == j
  {
    assert forall p :: 0 <= p < |s.pools| ==> PoolOk(s.pools[p], p);
    forall f: nat | f < s.nextFiber
      ensures f in InUseSet(s.home) || f in s.freed || exists p, i :: InSlot(s.pools, f, p, i)
    {
      if f in s.home && s.home[f].InPool? {
        var p := s.home[f].p;
        var i :| 0 <= i < |s.pools[p].fibers| && s.pools[p].fibers[i] == f;
        assert InSlot(s.pools, f, p, i);
      }
    }
    forall f, p, i | InSlot(s.pools, f, p, i) ensures 0 <= f < s.nextFiber && f !in InUseSet(s.home) && f !in s.freed && s.home[f] == InPool(p) {
      assert s.pools[p].fibers[i] in s.home;
    }
    forall f, p, i, q, j | InSlot(s.pools, f, p, i) && InSlot(s.pools, f, q, j) ensures p == q && i == j {
      OneSlot(s.pools, s.home, s.preallocated - s.reserved, p, i, q, j);
    }
  }

  /** How many fibers one batch takes. */
  function Batch(size: nat, keep: nat): nat {
    if size <= keep then 0 else if size - keep < BATCH then size - keep else BATCH
  }

  function Reversed(s: seq<nat>): (r: seq<nat>)
    ensures |r| == |s| && forall i :: 0 <= i < |s| ==> r[i] == s[|s| - 1 - i]
  {
    if s == [] then [] else Reversed(s[1..]) + [s[0]]
  }

  lemma ReversedNone()
    ensures Reversed([]) == []
  {
  }

  lemma GrabStep(fibers: seq<nat>, m: nat)
    requires 0 < m <= |fibers|
    ensures Reversed(fibers[m - 1..]) == Reversed(fibers[m..]) + [fibers[m - 1]] && fibers[..m][..m - 1] == fibers[..m - 1]
  {
    assert fibers[m - 1..] == [fibers[m - 1]] + fibers[m..];
    ReversedCons(fibers[m - 1], fibers[m..]);
  }

  lemma ReversedCons(f: nat, s: seq<nat>)
    ensures Reversed([f] + s) == Reversed(s) + [f]
  {
    assert ([f] + s)[1..] == s;
  }

  lemma SameSet(s: seq<nat>, r: seq<nat>)
    requires r == Reversed(s)
    ensures Elems(s) == Elems(r)
  {
    forall f | f in s ensures f in r {
      var i :| 0 <= i < |s| && s[i] == f;
      assert r[|s| - 1 - i] == f;
    }
  }

  /** Down to `m` fibers, each fiber less counted, and perhaps one put back. */
  function Trimmed(q: Pool, m: nat, back: Option<nat>): Pool
    requires m <= |q.fibers|
  {
    q.(total := q.total - (|q.fibers| - m), fibers := q.fibers[..m] + if back.Some? then [back.value] else [])
  }

  lemma BatchFacts(size: nat, keep: nat)
    ensures Batch(size, keep) <= size && (size <= keep ==> Batch(size, keep) == 0)
    ensures size > keep ==> 0 < Batch(size, keep) && size - Batch(size, keep) >= keep
  {
  }

  lemma TrimFull(q: Pool, f: nat)
    requires 0 < q.maxSize == |q.fibers|
    ensures Trimmed(q, q.maxSize - 1, Some(f)) == WithTop(q, f)
    ensures Elems(q.fibers[q.maxSize - 1..]) == {Top(q)}
  {
    assert q.fibers[q.maxSize - 1..] == [Top(q)];
  }

  lemma TrimTwice(q: Pool, m: nat, n: nat)
    requires n <= m <= |q.fibers|
    ensures |Trimmed(q, m, None).fibers| == m && Trimmed(q, m, None).maxSize == q.maxSize
  {
  }

  lemma TrimAgain(q: Pool, m: nat, n: nat, back: Option<nat>)
    requires n <= m <= |q.fibers|
    ensures Trimmed(Trimmed(q, m, None), m - n, back) == Trimmed(q, m - n, back)
    ensures Elems(q.fibers[m..]) + Elems(Trimmed(q, m, None).fibers[m - n..]) == Elems(q.fibers[m - n..])
  {
    var r := Trimmed(q, m, None);
    assert r.fibers == q.fibers[..m];
    assert r.fibers[..m - n] == q.fibers[..m - n];
    assert q.fibers[m - n..] == r.fibers[m - n..] + q.fibers[m..];
  }
}
