/**
 The pool of suspended deques: a growing vector of pointers whose elements know their own
 position (`self`) and owner (`worker`).  Removal swaps with the last element.
*/
module DequePool {
  import opened Wrappers

  const ACTIVE_DEQUE_INDEX := -1
  const INVALID_DEQUE_INDEX := -2

  /** A sequence after removing position `i`: the last element takes its place. */
  function SwapRemove<T>(pool: seq<T>, i: nat): (r: seq<T>)
    requires i < |pool|
    ensures |r| == |pool| - 1
  {
    pool[i := pool[|pool| - 1]][..|pool| - 1]
  }

  /** Exactly the element at `i` is gone, the rest are all still there, each as often as before. */
  lemma SwapRemoveContents<T>(pool: seq<T>, i: nat)
    requires i < |pool|
    ensures multiset(SwapRemove(pool, i)) == multiset(pool) - multiset{pool[i]}
    ensures forall k :: 0 <= k < |pool| - 1 && k != i ==> SwapRemove(pool, i)[k] == pool[k]
  {
    var last := |pool| - 1;
    var swapped := pool[i := pool[last]];
    assert pool == pool[..last] + [pool[last]];
    assert swapped == swapped[..last] + [pool[last]];
    assert multiset(swapped) == multiset(pool) - multiset{pool[i]} + multiset{pool[last]};
  }

  /** The part of a deque that the pools use. */
  class Deque {
    var self: int
    var worker: Option<nat>
    var resumable: bool

    constructor ()
      ensures self == 0 && worker == None && !resumable
    {
      self, worker, resumable := 0, None, false;
    }
  }

  /** The suspended pool or the resumable pool of worker `owner`. */
  class Pool {
    var array_: array<Deque?>
    var size: nat
    var capacity: nat
    const owner: nat
    const resumables: bool

    ghost predicate Shape()
      reads this, array_
    {
      && size <= capacity == array_.Length && 0 < capacity
      && forall i :: 0 <= i < size ==> array_[i] != null
    }

    ghost function Contents(): (s: seq<Deque>)
      requires Shape()
      reads this, array_
      ensures |s| == size && forall i :: 0 <= i < size ==> s[i] == array_[i]
    {
      seq(size, i requires 0 <= i < size && Shape() reads this, array_ => array_[i])
    }

    /** Every element knows where it is, whose it is, and is in the right kind of pool. */
    ghost predicate Valid()
      reads this, array_, if Shape() then Contents() else []
    {
      && Shape()
      && forall i :: 0 <= i < size ==>
           array_[i].self == i && array_[i].worker == Some(owner) && array_[i].resumable == resumables
    }

    constructor (ltqsize: nat, owner: nat, resumables: bool)
      requires 0 < ltqsize
      ensures Valid() && Contents() == [] && this.owner == owner && this.resumables == resumables && fresh(array_)
    {
      this.owner, this.resumables := owner, resumables;
      size, capacity := 0, ltqsize;
      array_ := new Deque?[ltqsize](_ => null);
    }

    /** A new array with the same elements. */
    method Resize(cap: nat)
      requires Shape() && size < cap
      modifies this`array_, this`capacity
      ensures Shape() && fresh(array_) && capacity == cap && Contents() == old(Contents())
    {
      var newArray := new Deque?[cap](_ => null);
      var i := 0;
      while i < size
        invariant 0 <= i <= size && newArray.Length == cap
        invariant forall k :: 0 <= k < i ==> newArray[k] == array_[k]
        modifies newArray
      {
        newArray[i] := array_[i];
        i := i + 1;
      }
      array_, capacity := newArray, cap;
    }

    /** The pool grows when it is full, so there is always room. */
    method Add(d: Deque)
      requires Valid() && d !in Contents() && d.resumable == resumables
      modifies this, array_, d`self, d`worker
      ensures Valid() && Contents() == old(Contents()) + [d]
      ensures d.self == old(size) && d.worker == Some(owner) && (array_ == old(array_) || fresh(array_))
    {
      if size == capacity {
        Resize(2 * capacity);
      }
      d.self := size;
      d.worker := Some(owner);
      array_[size] := d;
      size := size + 1;
    }

    /** The element that was last takes the place of the removed one and is told so. */
    method Remove(d: Deque)
      requires Valid() && d in Contents()
      modifies this`size, array_, Contents()
      ensures Valid() && Contents() == SwapRemove(old(Contents()), old(d.self)) && d !in Contents()
      ensures d.self == INVALID_DEQUE_INDEX && d.worker == None && d.resumable == old(d.resumable)
      ensures forall e <- old(Contents()) :: e != d ==>
        e.self == (if old(e.self) == old(size) - 1 then old(d.self) else old(e.self))
    {
      var last := size - 1;
      var i := d.self;
      assert 0 <= i < size && array_[i] == d;
      array_[i] := array_[last];
      array_[last].self := i;
      array_[last] := null;
      size := size - 1;
      d.self := INVALID_DEQUE_INDEX;
      d.worker := None;
    }

    /** The check the source makes after every change: no empty slot below `size`. */
    method Validate() returns (ok: bool)
      requires size <= array_.Length
      ensures ok <==> forall i :: 0 <= i < size ==> array_[i] != null
      ensures Shape() ==> ok
    {
      ok := true;
      var i := 0;
      while i < size
        invariant 0 <= i <= size && (ok <==> forall k :: 0 <= k < i ==> array_[k] != null)
      {
        ok := ok && array_[i] != null;
        i := i + 1;
      }
    }
  }

  /** With the owner's lock held: a suspended deque becomes one that any thief may resume. */
  method MakeResumable(suspended: Pool, resumables: Pool, d: Deque)
    requires suspended != resumables && suspended.Valid() && resumables.Valid()
    requires suspended.array_ != resumables.array_ && suspended.owner == resumables.owner
    requires !suspended.resumables && resumables.resumables && d in suspended.Contents()
    modifies suspended`size, suspended.array_, suspended.Contents()
    modifies resumables, resumables.array_, d
    ensures suspended.Valid() && resumables.Valid()
    ensures suspended.Contents() == SwapRemove(old(suspended.Contents()), old(d.self))
    ensures resumables.Contents() == old(resumables.Contents()) + [d]
    ensures d.resumable && d.worker == old(d.worker) && d.self == old(resumables.size)
  {
    assert d !in resumables.Contents();
    suspended.Remove(d);
    d.resumable := true;
    assert suspended.Valid();
    resumables.Add(d);
  }
}
