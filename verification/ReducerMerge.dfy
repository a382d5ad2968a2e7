/**
 Merging reducer maps.  Which of two maps survives depends on their sizes, and views change
 hands on the way; what every key ends up with does not: it is the left strand's value reduced
 with the right strand's, and every view is in exactly one map or has been destroyed.
*/
module ReducerMerge {
  import opened ReducerMap
  import opened Wrappers

  datatype MergeKind = MERGE_INTO_LEFT | MERGE_INTO_RIGHT

  /** The memory of views: their values, which of them were allocated by the runtime and not yet
      destroyed, and which reducer (by key) each belongs to.  The leftmost view of a reducer is at
      the address that is its key and is never allocated or destroyed here. */
  class Views<T> {
    var val: map<nat, T>
    var heap: set<nat>
    ghost var keyOf: map<nat, nat>

    constructor (leftmost: map<nat, T>)
      ensures val == leftmost && heap == {} && keyOf == map k | k in leftmost :: k
    {
      val, heap := leftmost, {};
      keyOf := map k | k in leftmost :: k;
    }

    method Allocate(v: nat, key: nat, identity: T)
      requires v !in val && v !in heap && v != 0
      modifies this
      ensures val == old(val)[v := identity] && heap == old(heap) + {v} && keyOf == old(keyOf)[v := key]
    {
      val, heap := val[v := identity], heap + {v};
      keyOf := keyOf[v := key];
    }

    /** The left view takes the result; the right one is only read. */
    method Reduce(op: (nat, T, T) -> T, key: nat, left: nat, right: nat)
      requires left in val && right in val
      modifies this`val
      ensures val == old(val)[left := op(key, old(val)[left], old(val)[right])]
    {
      val := val[left := op(key, val[left], val[right])];
    }

    /** Destroying what is not there is an error. */
    method Destroy(v: nat)
      requires v in heap
      modifies this`heap
      ensures heap == old(heap) - {v}
    {
      heap := heap - {v};
    }
  }

  /** The views of a map: each has a value, belongs to its reducer, and is either the reducer's
      leftmost view or one the runtime allocated. */
  ghost predicate Owns<T>(contents: map<nat, Entry>, val: map<nat, T>, heap: set<nat>, keyOf: map<nat, nat>) {
    forall k :: k in contents ==>
      var v := contents[k].view;
      v != 0 && v in val && v in keyOf && keyOf[v] == k && (v == k || v in heap) && k !in heap
  }

  /** No view is in both maps. */
  ghost predicate Apart(a: map<nat, Entry>, o: map<nat, Entry>) {
    forall k :: k in a && k in o ==> a[k].view != o[k].view
  }

  // ---------------------------------------------------------------- one key

  function Get(m: map<nat, Entry>, k: nat): Option<Entry> {
    if k in m then Some(m[k]) else None
  }

  /** The leftmost view has to be created first, unless it is the very view that arrives. */
  predicate Creates(lm: bool, a: Option<Entry>, k: nat, o: Entry) {
    a == None && lm && o.view != k
  }

  predicate Moves(lm: bool, a: Option<Entry>, k: nat, o: Entry) {
    a == None && !Creates(lm, a, k, o)
  }

  /** What the surviving map then has for the key. */
  function ThisEntry(kind: MergeKind, lm: bool, a: Option<Entry>, k: nat, o: Entry): Entry {
    if Moves(lm, a, k, o) then o
    else
      var mine := if a == None then Entry(o.hb, k) else a.value;
      if kind == MERGE_INTO_LEFT then mine else mine.(view := o.view)
  }

  /** And the map that is about to be destroyed. */
  function OtherEntry(kind: MergeKind, lm: bool, a: Option<Entry>, k: nat, o: Entry): Entry {
    if Moves(lm, a, k, o) then o.(view := 0)
    else if kind == MERGE_INTO_LEFT then o
    else o.(view := if a == None then k else a.value.view)
  }

  /** After the keys in `done` have been dealt with. */
  ghost predicate ContentsAfter(kind: MergeKind, lm: bool, a0: map<nat, Entry>, o0: map<nat, Entry>, done: set<nat>,
                                a: map<nat, Entry>, o: map<nat, Entry>) {
    && a.Keys == a0.Keys + done && done <= o0.Keys == o.Keys
    && (forall k :: k in a && k !in done ==> a[k] == a0[k])
    && (forall k :: k in o && k !in done ==> o[k] == o0[k])
    && (forall k :: k in done ==>
          && a[k] == ThisEntry(kind, lm, Get(a0, k), k, o0[k])
          && o[k] == OtherEntry(kind, lm, Get(a0, k), k, o0[k]))
  }

  ghost predicate Written(kind: MergeKind, lm: bool, a0: map<nat, Entry>, o0: map<nat, Entry>, done: set<nat>, keyOf: map<nat, nat>, v: nat)
    requires done <= o0.Keys
  {
    v in keyOf && keyOf[v] in done && v == ThisEntry(kind, lm, Get(a0, keyOf[v]), keyOf[v], o0[keyOf[v]]).view
  }

  /** And the values: a key that was reduced has the reduction in its surviving view. */
  ghost predicate ValuesAfter<T>(op: (nat, T, T) -> T, kind: MergeKind, lm: bool, a0: map<nat, Entry>, o0: map<nat, Entry>,
                                 done: set<nat>, val0: map<nat, T>, val: map<nat, T>, keyOf: map<nat, nat>) {
    && val.Keys == val0.Keys && done <= o0.Keys
    && (forall v :: v in val0 && !Written(kind, lm, a0, o0, done, keyOf, v) ==> val[v] == val0[v])
    && (forall k :: k in done ==> ValueOf(op, kind, lm, a0, o0, val0, val, k))
  }

  ghost predicate ValueOf<T>(op: (nat, T, T) -> T, kind: MergeKind, lm: bool, a0: map<nat, Entry>, o0: map<nat, Entry>,
                             val0: map<nat, T>, val: map<nat, T>, k: nat)
    requires k in o0
  {
    var t := ThisEntry(kind, lm, Get(a0, k), k, o0[k]).view;
    var f := OtherEntry(kind, lm, Get(a0, k), k, o0[k]).view;
    && t in val0 && t in val
    && if Moves(lm, Get(a0, k), k, o0[k]) then val[t] == val0[t] else f in val0 && val[t] == op(k, val0[t], val0[f])
  }

  /** The values after one key. */
  function StepValues<T>(op: (nat, T, T) -> T, kind: MergeKind, lm: bool, a: Option<Entry>, k: nat, o: Entry, val: map<nat, T>): map<nat, T>
    requires !Moves(lm, a, k, o) ==> ThisEntry(kind, lm, a, k, o).view in val && OtherEntry(kind, lm, a, k, o).view in val
  {
    if Moves(lm, a, k, o) then val
    else
      var t, f := ThisEntry(kind, lm, a, k, o).view, OtherEntry(kind, lm, a, k, o).view;
      val[t := op(k, val[t], val[f])]
  }

  /** Bucket by bucket the same keys in the same slots. */
  ghost predicate SameKeys(b: seq<Elem>, c: seq<Elem>) {
    |b| == |c| && Used(b) == Used(c) && forall j :: 0 <= j < |b| ==> b[j].key == c[j].key
  }

  /** What has to be in memory for an element to be merged. */
  predicate Present<T>(lm: bool, a: Option<Entry>, k: nat, o: Entry, val: map<nat, T>) {
    o.view != 0 && o.view in val && (a.Some? ==> a.value.view in val && a.value.view != 0) && (lm ==> k in val)
  }

  /** The slot of `m` that the arriving view is to be reduced with, after making the leftmost view's
      element if a leftmost map has none. */
  method FindOrCreate(m: RedMap, key: nat, hb: nat, otherView: nat) returns (found: bool, ti: nat, tj: nat)
    requires m.Valid() && NonNull(m.contents) && key != 0
    modifies m`nbuckets, m`buckets, m`nelem, m`contents, m`logSize
    ensures m.Valid() && NonNull(m.contents)
    ensures m.contents == if key !in old(m.contents) && m.isLeftmost && key != otherView then old(m.contents)[key := Entry(hb, key)] else old(m.contents)
    ensures found <==> key in m.contents
    ensures found ==> ti < |m.buckets| && tj < Used(m.buckets[ti]) && m.buckets[ti][tj].key == key
    ensures found ==> m.contents[key] == Entry(m.buckets[ti][tj].hb, m.buckets[ti][tj].view)
  {
    hide RedMap.Valid, Used, NonNull;
    found, ti, tj := m.Lookup(key);
    if !found && m.isLeftmost {
      var leftmost := key;
      if leftmost != otherView {
        m.RehashAndInsert(key, hb, leftmost);
        found, ti, tj := m.Lookup(key);
      }
    }
  }

  /** Both maps have the key: reduce into the left view, which goes to, or stays in, `this_`. */
  method ReduceViews<T>(this_: RedMap, other: RedMap, store: Views<T>, op: (nat, T, T) -> T, kind: MergeKind, i: nat, j: nat, ti: nat, tj: nat)
    requires this_ != other && this_.Valid() && other.Valid()
    requires i < |other.buckets| && j < Used(other.buckets[i]) && ti < |this_.buckets| && tj < Used(this_.buckets[ti])
    requires this_.buckets[ti][tj].key == other.buckets[i][j].key
    requires this_.buckets[ti][tj].view in store.val && other.buckets[i][j].view in store.val
    modifies this_`buckets, this_`contents, other`buckets, other`contents, store`val
    ensures this_.Valid() && other.Valid()
    ensures other.buckets == old(other.buckets)[i := other.buckets[i]] && SameKeys(old(other.buckets[i]), other.buckets[i])
    ensures var t, f := old(this_.buckets[ti][tj]), old(other.buckets[i][j]);
      if kind == MERGE_INTO_LEFT then
        && this_.contents == old(this_.contents) && other.contents == old(other.contents)
        && store.val == old(store.val)[t.view := op(t.key, old(store.val)[t.view], old(store.val)[f.view])]
      else
        && this_.contents == old(this_.contents)[t.key := Entry(t.hb, f.view)]
        && other.contents == old(other.contents)[t.key := Entry(f.hb, t.view)]
        && store.val == old(store.val)[f.view := op(t.key, old(store.val)[f.view], old(store.val)[t.view])]
  {
    hide RedMap.Valid, Used;
    var key, thisView, otherView := other.buckets[i][j].key, this_.buckets[ti][tj].view, other.buckets[i][j].view;
    if kind == MERGE_INTO_RIGHT {
      other.SetView(i, j, thisView);
      this_.SetView(ti, tj, otherView);
      store.Reduce(op, key, otherView, thisView);
    } else {
      store.Reduce(op, key, thisView, otherView);
    }
  }

  /** Slot (`i`, `j`) of a map, with what the map records for its key. */
  ghost predicate Slot(m: RedMap, i: nat, j: nat)
    reads m
  {
    && i < |m.buckets| && j < Used(m.buckets[i]) < |m.buckets[i]|
    && var e := m.buckets[i][j]; e.key != 0 && e.key in m.contents && m.contents[e.key] == Entry(e.hb, e.view)
  }

  /** The element of a key keeps the hyperobject base it had in the surviving map, or else the one
      that it had in the other. */
  ghost predicate KeepsBase(a0: map<nat, Entry>, o0: map<nat, Entry>, a: map<nat, Entry>, k: nat) {
    k in a && if k in a0 then a[k].hb == a0[k].hb else k in o0 && a[k].hb == o0[k].hb
  }

  /** Merge the element in slot (`i`, `j`) of `other`. */
  method MergeElement<T>(this_: RedMap, other: RedMap, store: Views<T>, op: (nat, T, T) -> T, kind: MergeKind, i: nat, j: nat)
    requires this_ != other && this_.Valid() && other.Valid() && NonNull(this_.contents) && Slot(other, i, j)
    requires var k := other.buckets[i][j].key;
      Present(this_.isLeftmost, Get(this_.contents, k), k, other.contents[k], store.val)
    requires this_.isLeftmost ==> kind == MERGE_INTO_LEFT
    modifies this_`nbuckets, this_`buckets, this_`nelem, this_`contents, this_`logSize
    modifies other`buckets, other`contents, store`val
    ensures this_.Valid() && other.Valid() && NonNull(this_.contents)
    ensures other.buckets == old(other.buckets)[i := other.buckets[i]] && SameKeys(old(other.buckets[i]), other.buckets[i])
    ensures var k := old(other.buckets[i][j]).key; var a := old(Get(this_.contents, k)); var o := old(other.contents)[k];
      && this_.contents == old(this_.contents)[k := ThisEntry(kind, this_.isLeftmost, a, k, o)]
      && other.contents == old(other.contents)[k := OtherEntry(kind, this_.isLeftmost, a, k, o)]
      && store.val == StepValues(op, kind, this_.isLeftmost, a, k, o, old(store.val))
    ensures KeepsBase(old(this_.contents), old(other.contents), this_.contents, old(other.buckets[i][j]).key)
  {
    hide RedMap.Valid, Used;
    var otherView, key, hb := other.buckets[i][j].view, other.buckets[i][j].key, other.buckets[i][j].hb;
    assert otherView != 0;
    var found, ti, tj := FindOrCreate(this_, key, hb, otherView);
    if !found {
      this_.RehashAndInsert(key, hb, otherView);
      other.SetView(i, j, 0);
    } else {
      ReduceViews(this_, other, store, op, kind, i, j, ti, tj);
    }
  }

  // ---------------------------------------------------------------- all keys

  lemma ContentsStep(kind: MergeKind, lm: bool, a0: map<nat, Entry>, o0: map<nat, Entry>, done: set<nat>,
                     a: map<nat, Entry>, o: map<nat, Entry>, k: nat)
    requires ContentsAfter(kind, lm, a0, o0, done, a, o) && k in o0 && k !in done
    ensures Get(a, k) == Get(a0, k) && o[k] == o0[k]
    ensures ContentsAfter(kind, lm, a0, o0, done + {k}, a[k := ThisEntry(kind, lm, Get(a, k), k, o[k])],
                          o[k := OtherEntry(kind, lm, Get(a, k), k, o[k])])
  {
    hide ThisEntry, OtherEntry;
  }

  /** The views of one map, and those of a leftmost map that may still have to be created. */
  ghost predicate Mergeable<T>(lm: bool, a0: map<nat, Entry>, o0: map<nat, Entry>, val0: map<nat, T>, heap: set<nat>, keyOf: map<nat, nat>) {
    && Owns(a0, val0, heap, keyOf) && Owns(o0, val0, heap, keyOf) && Apart(a0, o0)
    && (lm ==> forall k :: k in o0 ==> k in val0 && k in keyOf && keyOf[k] == k && k != 0)
  }

  /** Both views of a key that is to be reduced are there and still have their first values. */
  lemma ViewsOfKey<T>(op: (nat, T, T) -> T, kind: MergeKind, lm: bool, a0: map<nat, Entry>, o0: map<nat, Entry>, done: set<nat>,
                      val0: map<nat, T>, val: map<nat, T>, heap: set<nat>, keyOf: map<nat, nat>, k: nat)
    requires Mergeable(lm, a0, o0, val0, heap, keyOf) && ValuesAfter(op, kind, lm, a0, o0, done, val0, val, keyOf)
    requires k in o0 && k !in done
    ensures Present(lm, Get(a0, k), k, o0[k], val)
    ensures var t := ThisEntry(kind, lm, Get(a0, k), k, o0[k]).view; t in val && t in keyOf && keyOf[t] == k && val[t] == val0[t]
    ensures var f := OtherEntry(kind, lm, Get(a0, k), k, o0[k]).view;
      !Moves(lm, Get(a0, k), k, o0[k]) ==> f in val && val[f] == val0[f] && f != ThisEntry(kind, lm, Get(a0, k), k, o0[k]).view
  {
  }

  lemma ValuesStep<T>(op: (nat, T, T) -> T, kind: MergeKind, lm: bool, a0: map<nat, Entry>, o0: map<nat, Entry>, done: set<nat>,
                      val0: map<nat, T>, val: map<nat, T>, heap: set<nat>, keyOf: map<nat, nat>, k: nat)
    requires Mergeable(lm, a0, o0, val0, heap, keyOf) && ValuesAfter(op, kind, lm, a0, o0, done, val0, val, keyOf)
    requires k in o0 && k !in done
    ensures Present(lm, Get(a0, k), k, o0[k], val)
    ensures ValuesAfter(op, kind, lm, a0, o0, done + {k}, val0, StepValues(op, kind, lm, Get(a0, k), k, o0[k], val), keyOf)
  {
    var val2 := StepValuesOf(op, kind, lm, a0, o0, done, val0, val, heap, keyOf, k);
    hide ThisEntry, OtherEntry, Moves, Mergeable, ValueOf, StepValues, Present;
    UnwrittenKept(kind, lm, a0, o0, done, val0, val, val2, keyOf, k);
    hide Written;
    forall h | h in done ensures ValueOf(op, kind, lm, a0, o0, val0, val2, h) {
      ValueKept(op, kind, lm, a0, o0, val0, val, val2, heap, keyOf, h, k);
    }
  }

  /** The new values, and what is to be known about them. */
  lemma StepValuesOf<T>(op: (nat, T, T) -> T, kind: MergeKind, lm: bool, a0: map<nat, Entry>, o0: map<nat, Entry>, done: set<nat>,
                        val0: map<nat, T>, val: map<nat, T>, heap: set<nat>, keyOf: map<nat, nat>, k: nat) returns (val2: map<nat, T>)
    requires Mergeable(lm, a0, o0, val0, heap, keyOf) && ValuesAfter(op, kind, lm, a0, o0, done, val0, val, keyOf)
    requires k in o0 && k !in done
    ensures Present(lm, Get(a0, k), k, o0[k], val) && val2 == StepValues(op, kind, lm, Get(a0, k), k, o0[k], val)
    ensures val2.Keys == val.Keys && ValueOf(op, kind, lm, a0, o0, val0, val2, k)
    ensures var t := ThisEntry(kind, lm, Get(a0, k), k, o0[k]).view;
      t in keyOf && keyOf[t] == k && forall v :: v in val && v != t ==> val2[v] == val[v]
  {
    ViewsOfKey(op, kind, lm, a0, o0, done, val0, val, heap, keyOf, k);
    hide Mergeable, ValuesAfter;
    val2 := StepValues(op, kind, lm, Get(a0, k), k, o0[k], val);
  }

  lemma ValueKept<T>(op: (nat, T, T) -> T, kind: MergeKind, lm: bool, a0: map<nat, Entry>, o0: map<nat, Entry>,
                     val0: map<nat, T>, val: map<nat, T>, val2: map<nat, T>, heap: set<nat>, keyOf: map<nat, nat>, h: nat, k: nat)
    requires Mergeable(lm, a0, o0, val0, heap, keyOf) && h in o0 && k in o0 && h != k && val2.Keys == val.Keys
    requires ValueOf(op, kind, lm, a0, o0, val0, val, h)
    requires var t := ThisEntry(kind, lm, Get(a0, k), k, o0[k]).view;
      t in keyOf && keyOf[t] == k && forall v :: v in val && v != t ==> val2[v] == val[v]
    ensures ValueOf(op, kind, lm, a0, o0, val0, val2, h)
  {
    ViewBelongs(kind, lm, a0, o0, val0, heap, keyOf, h);
    hide ThisEntry, OtherEntry, Moves, Mergeable;
  }

  lemma UnwrittenKept<T>(kind: MergeKind, lm: bool, a0: map<nat, Entry>, o0: map<nat, Entry>, done: set<nat>,
                         val0: map<nat, T>, val: map<nat, T>, val2: map<nat, T>, keyOf: map<nat, nat>, k: nat)
    requires done <= o0.Keys && k in o0 && val0.Keys == val.Keys == val2.Keys
    requires forall v :: v in val0 && !Written(kind, lm, a0, o0, done, keyOf, v) ==> val[v] == val0[v]
    requires var t := ThisEntry(kind, lm, Get(a0, k), k, o0[k]).view;
      t in keyOf && keyOf[t] == k && forall v :: v in val && v != t ==> val2[v] == val[v]
    ensures forall v :: v in val0 && !Written(kind, lm, a0, o0, done + {k}, keyOf, v) ==> val2[v] == val0[v]
  {
    hide ThisEntry;
  }

  lemma ViewBelongs<T>(kind: MergeKind, lm: bool, a0: map<nat, Entry>, o0: map<nat, Entry>, val0: map<nat, T>, heap: set<nat>,
                       keyOf: map<nat, nat>, k: nat)
    requires Mergeable(lm, a0, o0, val0, heap, keyOf) && k in o0
    ensures var t := ThisEntry(kind, lm, Get(a0, k), k, o0[k]).view; t in val0 && t in keyOf && keyOf[t] == k
  {
  }

  /** The keys in `done` are those of the slots before (`i`, `j`). */
  ghost predicate Walked(buckets: seq<seq<Elem>>, done: set<nat>, i: int, j: int) {
    forall m, n :: 0 <= m < |buckets| && 0 <= n < Used(buckets[m]) ==> (buckets[m][n].key in done <==> Before(m, n, i, j))
  }

  lemma WalkedOne(buckets: seq<seq<Elem>>, all: map<nat, Entry>, done: set<nat>, i: int, j: int, c: seq<Elem>)
    requires Represents(buckets, all) && 0 <= i < |buckets| && 0 <= j < Used(buckets[i]) && SameKeys(buckets[i], c)
    requires Walked(buckets, done, i, j)
    ensures Walked(buckets[i := c], done + {buckets[i][j].key}, i, j + 1)
  {
    hide Represents, Used;
    var bs := buckets[i := c];
    forall m, n | 0 <= m < |bs| && 0 <= n < Used(bs[m])
      ensures bs[m][n].key in done + {buckets[i][j].key} <==> Before(m, n, i, j + 1)
    {
      assert bs[m][n].key == buckets[m][n].key;
      if buckets[m][n].key == buckets[i][j].key { SlotsDistinct(buckets, all, i, j, m, n); }
    }
  }

  lemma WalkedAll(buckets: seq<seq<Elem>>, all: map<nat, Entry>, done: set<nat>, i: int)
    requires Represents(buckets, all) && Walked(buckets, done, i, 0) && i == |buckets| && done <= all.Keys
    ensures done == all.Keys
  {
    forall k | k in all ensures k in done {
      var b := buckets[HashFun(|buckets|, k)];
      assert HasKey(b, k);
      var l :| 0 <= l < Used(b) && b[l].key == k;
      assert buckets[HashFun(|buckets|, k)][l].key == k;
    }
  }

  lemma WalkedBucket(buckets: seq<seq<Elem>>, done: set<nat>, i: int, j: int)
    requires 0 <= i < |buckets| && j == Used(buckets[i]) && Walked(buckets, done, i, j)
    ensures Walked(buckets, done, i + 1, 0)
  {
  }

  lemma BucketShape(buckets: seq<seq<Elem>>, all: map<nat, Entry>, i: nat)
    requires Represents(buckets, all) && i < |buckets|
    ensures buckets[i] != [] ==> Used(buckets[i]) < |buckets[i]|
    ensures buckets[i] == [] ==> Used(buckets[i]) == 0
    ensures forall j :: 0 <= j < Used(buckets[i]) ==> var e := buckets[i][j]; e.key in all && e.key != 0 && all[e.key] == Entry(e.hb, e.view)
  {
    assert BucketSound(buckets[i], i, |buckets|, all);
  }

  method MergeBucket<T>(this_: RedMap, other: RedMap, store: Views<T>, op: (nat, T, T) -> T, kind: MergeKind, i: nat,
                        ghost a0: map<nat, Entry>, ghost o0: map<nat, Entry>, ghost val0: map<nat, T>, ghost done0: set<nat>)
      returns (ghost done: set<nat>)
    requires i < |other.buckets|
    requires Walking(this_, other, store, op, kind, a0, o0, val0, done0, i)
    modifies this_`nbuckets, this_`buckets, this_`nelem, this_`contents, this_`logSize
    modifies other`buckets, other`contents, store`val
    ensures |other.buckets| == old(|other.buckets|) && Walking(this_, other, store, op, kind, a0, o0, val0, done, i + 1)
  {
    hide Represents, Used, HashFun, Mergeable, ContentsAfter, ValuesAfter, Walked, SameKeys, NonNull;
    done := done0;
    BucketShape(other.buckets, other.contents, i);
    if other.buckets[i] != [] {
      var j := 0;
      while other.buckets[i][j].key != 0
        invariant this_.Valid() && other.Valid() && NonNull(this_.contents) && |other.buckets| == old(|other.buckets|)
        invariant 0 <= j <= Used(other.buckets[i]) < |other.buckets[i]| == old(|other.buckets[i]|)
        invariant Walked(other.buckets, done, i, j)
        invariant ContentsAfter(kind, this_.isLeftmost, a0, o0, done, this_.contents, other.contents)
        invariant ValuesAfter(op, kind, this_.isLeftmost, a0, o0, done, val0, store.val, store.keyOf)
        decreases |other.buckets[i]| - j
      {
        done := MergeNext(this_, other, store, op, kind, i, j, a0, o0, val0, done);
        j := j + 1;
      }
      assert j == Used(other.buckets[i]);
      WalkedBucket(other.buckets, done, i, j);
    } else {
      WalkedBucket(other.buckets, done, i, 0);
    }
  }

  lemma NextIsNew(kind: MergeKind, lm: bool, a0: map<nat, Entry>, o0: map<nat, Entry>, done: set<nat>,
                  a: map<nat, Entry>, o: map<nat, Entry>, buckets: seq<seq<Elem>>, i: nat, j: nat)
    requires Represents(buckets, o) && ContentsAfter(kind, lm, a0, o0, done, a, o)
    requires i < |buckets| && j < Used(buckets[i]) && Walked(buckets, done, i, j)
    ensures var e := buckets[i][j];
      j < Used(buckets[i]) < |buckets[i]| && e.key !in done && e.key in o0 && e.key in o && e.key != 0 && o[e.key] == Entry(e.hb, e.view)
  {
    BucketShape(buckets, o, i);
    assert !Before(i, j, i, j);
  }

  method MergeNext<T>(this_: RedMap, other: RedMap, store: Views<T>, op: (nat, T, T) -> T, kind: MergeKind, i: nat, j: nat,
                      ghost a0: map<nat, Entry>, ghost o0: map<nat, Entry>, ghost val0: map<nat, T>, ghost done0: set<nat>)
      returns (ghost done: set<nat>)
    requires this_ != other && this_.Valid() && other.Valid() && NonNull(this_.contents)
    requires i < |other.buckets| && j < Used(other.buckets[i]) && (this_.isLeftmost ==> kind == MERGE_INTO_LEFT)
    requires Walked(other.buckets, done0, i, j)
    requires Mergeable(this_.isLeftmost, a0, o0, val0, store.heap, store.keyOf)
    requires ContentsAfter(kind, this_.isLeftmost, a0, o0, done0, this_.contents, other.contents)
    requires ValuesAfter(op, kind, this_.isLeftmost, a0, o0, done0, val0, store.val, store.keyOf)
    modifies this_`nbuckets, this_`buckets, this_`nelem, this_`contents, this_`logSize
    modifies other`buckets, other`contents, store`val
    ensures this_.Valid() && other.Valid() && NonNull(this_.contents)
    ensures |other.buckets| == old(|other.buckets|) && |other.buckets[i]| == old(|other.buckets[i]|)
    ensures Used(other.buckets[i]) == old(Used(other.buckets[i]))
    ensures Walked(other.buckets, done, i, j + 1)
    ensures ContentsAfter(kind, this_.isLeftmost, a0, o0, done, this_.contents, other.contents)
    ensures ValuesAfter(op, kind, this_.isLeftmost, a0, o0, done, val0, store.val, store.keyOf)
  {
    hide Represents, Used, HashFun, Mergeable, ContentsAfter, ValuesAfter, Walked, NonNull, Present, ThisEntry, OtherEntry, StepValues, Moves;
    ghost var k := other.buckets[i][j].key;
    NextIsNew(kind, this_.isLeftmost, a0, o0, done0, this_.contents, other.contents, other.buckets, i, j);
    ghost var a, o, val := this_.contents, other.contents, store.val;
    ContentsStep(kind, this_.isLeftmost, a0, o0, done0, a, o, k);
    ValuesStep(op, kind, this_.isLeftmost, a0, o0, done0, val0, val, store.heap, store.keyOf, k);
    ghost var bs := other.buckets;
    MergeElement(this_, other, store, op, kind, i, j);
    WalkedOne(bs, o, done0, i, j, other.buckets[i]);
    done := done0 + {k};
  }

  // ---------------------------------------------------------------- destroying the other map

  /** View `v` is the one `contents` has for its reducer. */
  ghost predicate Holds(contents: map<nat, Entry>, keyOf: map<nat, nat>, v: nat) {
    v in keyOf && keyOf[v] in contents && contents[keyOf[v]].view == v
  }

  /** Views of a map to be destroyed: none where they were moved away. */
  ghost predicate Doomed(contents: map<nat, Entry>, heap: set<nat>, keyOf: map<nat, nat>) {
    forall k :: k in contents && contents[k].view != 0 ==>
      var v := contents[k].view;
      v in keyOf && keyOf[v] == k && (v == k || v in heap) && k !in heap
  }

  /** Exactly the views of `contents` are no longer there. */
  ghost predicate Gone(heap0: set<nat>, heap: set<nat>, contents: map<nat, Entry>, keyOf: map<nat, nat>) {
    forall v :: v in heap <==> v in heap0 && !Holds(contents, keyOf, v)
  }

  /** Every allocated view of the two maps is in the surviving one or has been destroyed; no other
      view has been. */
  ghost predicate Kept(heap0: set<nat>, heap: set<nat>, l: map<nat, Entry>, r: map<nat, Entry>, m: map<nat, Entry>, keyOf: map<nat, nat>) {
    forall v :: v in heap <==> v in heap0 && (Holds(l, keyOf, v) || Holds(r, keyOf, v) ==> Holds(m, keyOf, v))
  }

  ghost predicate Without(heap0: set<nat>, heap: set<nat>, contents: map<nat, Entry>, keyOf: map<nat, nat>, done: set<nat>) {
    forall v :: v in heap <==> v in heap0 && !(Holds(contents, keyOf, v) && keyOf[v] in done)
  }

  lemma WithoutStep(heap0: set<nat>, heap: set<nat>, contents: map<nat, Entry>, keyOf: map<nat, nat>, done: set<nat>, k: nat)
    requires Doomed(contents, heap0, keyOf) && Without(heap0, heap, contents, keyOf, done) && k in contents && k !in done
    requires 0 !in heap0
    ensures contents[k].view != 0 && contents[k].view != k ==> contents[k].view in heap
    ensures Without(heap0, if contents[k].view != 0 && contents[k].view != k then heap - {contents[k].view} else heap, contents, keyOf, done + {k})
  {
  }

  /** Destroys every view of the map that is not a leftmost one; twice destroying would be an error. */
  method DestroyReducerMap<T>(store: Views<T>, h: RedMap)
    requires h.Valid() && Doomed(h.contents, store.heap, store.keyOf) && 0 !in store.heap
    modifies store`heap
    ensures Gone(old(store.heap), store.heap, h.contents, store.keyOf)
  {
    ghost var heap0 := store.heap;
    ghost var done: set<nat> := {};
    var i := 0;
    assert Walked(h.buckets, done, 0, 0) && Without(heap0, store.heap, h.contents, store.keyOf, done);
    hide Represents, Used, HashFun, Doomed, Without, Walked, Holds;
    while i < h.nbuckets
      invariant 0 <= i <= |h.buckets| && done <= h.contents.Keys
      invariant Walked(h.buckets, done, i, 0) && Without(heap0, store.heap, h.contents, store.keyOf, done)
    {
      done := DestroyBucket(store, h, i, heap0, done);
      i := i + 1;
    }
    WalkedAll(h.buckets, h.contents, done, i);
    WithoutAll(heap0, store.heap, h.contents, store.keyOf, done);
  }

  lemma WithoutAll(heap0: set<nat>, heap: set<nat>, contents: map<nat, Entry>, keyOf: map<nat, nat>, done: set<nat>)
    requires Without(heap0, heap, contents, keyOf, done) && done == contents.Keys
    ensures Gone(heap0, heap, contents, keyOf)
  {
  }

  lemma WalkedIsNew(buckets: seq<seq<Elem>>, all: map<nat, Entry>, done: set<nat>, i: nat, j: nat)
    requires Represents(buckets, all) && i < |buckets| && j < Used(buckets[i]) && Walked(buckets, done, i, j)
    ensures var e := buckets[i][j];
      j < Used(buckets[i]) < |buckets[i]| && e.key !in done && e.key in all && all[e.key] == Entry(e.hb, e.view)
  {
    BucketShape(buckets, all, i);
    assert !Before(i, j, i, j);
  }

  lemma SameBuckets(buckets: seq<seq<Elem>>, i: nat)
    requires i < |buckets|
    ensures SameKeys(buckets[i], buckets[i]) && buckets[i := buckets[i]] == buckets
  {
  }

  method DestroyBucket<T>(store: Views<T>, h: RedMap, i: nat, ghost heap0: set<nat>, ghost done0: set<nat>) returns (ghost done: set<nat>)
    requires h.Valid() && i < |h.buckets| && Doomed(h.contents, heap0, store.keyOf) && 0 !in heap0 && done0 <= h.contents.Keys
    requires Walked(h.buckets, done0, i, 0) && Without(heap0, store.heap, h.contents, store.keyOf, done0)
    modifies store`heap
    ensures Walked(h.buckets, done, i + 1, 0) && Without(heap0, store.heap, h.contents, store.keyOf, done)
    ensures done <= h.contents.Keys
  {
    hide Represents, Used, HashFun, Doomed, Without, Walked, Holds, SameKeys;
    done := done0;
    var b, j := h.buckets[i], 0;
    BucketShape(h.buckets, h.contents, i);
    SameBuckets(h.buckets, i);
    if b != [] {
      while b[j].key != 0
        invariant 0 <= j <= Used(b) && done <= h.contents.Keys
        invariant Walked(h.buckets, done, i, j) && Without(heap0, store.heap, h.contents, store.keyOf, done)
        decreases |b| - j
      {
        WalkedIsNew(h.buckets, h.contents, done, i, j);
        WithoutStep(heap0, store.heap, h.contents, store.keyOf, done, b[j].key);
        WalkedOne(h.buckets, h.contents, done, i, j, b);
        if b[j].view != 0 {
          if b[j].view != b[j].key {
            store.Destroy(b[j].view);
          }
        }
        done := done + {b[j].key};
        j := j + 1;
      }
      assert j == Used(b);
    }
    WalkedBucket(h.buckets, done, i, j);
  }

  // ---------------------------------------------------------------- merging whole maps

  /** What a map means: a value for each reducer the strand used. */
  ghost function Meaning<T>(contents: map<nat, Entry>, val: map<nat, T>): map<nat, T> {
    map k | k in contents && contents[k].view in val :: val[contents[k].view]
  }

  /** Left strand, then right strand; `init` has the first values of reducers the left one has no
      view for but owns the leftmost view of. */
  function CombineInto<T>(op: (nat, T, T) -> T, init: map<nat, T>, l: map<nat, T>, r: map<nat, T>): map<nat, T> {
    map k | k in l.Keys + r.Keys ::
      if k !in r then l[k] else if k in l then op(k, l[k], r[k]) else if k in init then op(k, init[k], r[k]) else r[k]
  }

  function Combine<T>(op: (nat, T, T) -> T, l: map<nat, T>, r: map<nat, T>): map<nat, T> {
    CombineInto(op, map[], l, r)
  }

  /** The leftmost map creates the leftmost view of a reducer that only the right strand used,
      except when that strand's view is the leftmost one itself. */
  ghost function Initial<T>(lm: bool, o: map<nat, Entry>, val: map<nat, T>): map<nat, T> {
    map k | k in o && lm && o[k].view != k && k in val :: val[k]
  }

  ghost predicate AllLeftmost(contents: map<nat, Entry>) {
    forall k :: k in contents ==> contents[k].view == k
  }

  lemma MergedMeaning<T>(op: (nat, T, T) -> T, kind: MergeKind, lm: bool, a0: map<nat, Entry>, o0: map<nat, Entry>,
                         a: map<nat, Entry>, o: map<nat, Entry>, val0: map<nat, T>, val: map<nat, T>, heap: set<nat>, keyOf: map<nat, nat>)
    requires Mergeable(lm, a0, o0, val0, heap, keyOf) && (lm ==> kind == MERGE_INTO_LEFT)
    requires ContentsAfter(kind, lm, a0, o0, o0.Keys, a, o) && ValuesAfter(op, kind, lm, a0, o0, o0.Keys, val0, val, keyOf)
    ensures kind == MERGE_INTO_LEFT ==>
      Meaning(a, val) == CombineInto(op, Initial(lm, o0, val0), Meaning(a0, val0), Meaning(o0, val0))
    ensures kind == MERGE_INTO_RIGHT ==> Meaning(a, val) == Combine(op, Meaning(o0, val0), Meaning(a0, val0))
  {
    OwnedMeaning(a0, val0, heap, keyOf);
    OwnedMeaning(o0, val0, heap, keyOf);
    assert lm ==> forall k :: k in o0 ==> k in val0;
    KeysAfter(op, kind, lm, a0, o0, o0.Keys, a, o, val0, val, keyOf);
    hide ContentsAfter, ValuesAfter, Mergeable, Meaning;
    forall k | k in a ensures MergedValue(op, kind, lm, a0, o0, val0, val, a, k) {
      MergedKey(op, kind, lm, a0, o0, a, o, val0, val, heap, keyOf, k);
    }
    MeaningFrom(op, kind, lm, a0, o0, a, val0, val);
  }

  /** The value of a key, case by case. */
  ghost predicate MergedValue<T>(op: (nat, T, T) -> T, kind: MergeKind, lm: bool, a0: map<nat, Entry>, o0: map<nat, Entry>,
                                 val0: map<nat, T>, val: map<nat, T>, a: map<nat, Entry>, k: nat)
    requires k in a
  {
    && a[k].view in val && (k in a0 ==> a0[k].view in val0) && (k in o0 ==> o0[k].view in val0)
    && (k !in o0 ==> k in a0 && val[a[k].view] == val0[a0[k].view])
    && (k in o0 && k in a0 ==> val[a[k].view] == if kind == MERGE_INTO_LEFT then op(k, val0[a0[k].view], val0[o0[k].view])
                                                 else op(k, val0[o0[k].view], val0[a0[k].view]))
    && (k in o0 && k !in a0 ==> if lm && o0[k].view != k then k in val0 && val[a[k].view] == op(k, val0[k], val0[o0[k].view])
                                else val[a[k].view] == val0[o0[k].view])
  }

  lemma MeaningFrom<T>(op: (nat, T, T) -> T, kind: MergeKind, lm: bool, a0: map<nat, Entry>, o0: map<nat, Entry>,
                       a: map<nat, Entry>, val0: map<nat, T>, val: map<nat, T>)
    requires a.Keys == a0.Keys + o0.Keys && (lm ==> kind == MERGE_INTO_LEFT && forall k :: k in o0 ==> k in val0)
    requires Meaning(a0, val0).Keys == a0.Keys && Meaning(o0, val0).Keys == o0.Keys
    requires forall k :: k in a ==> MergedValue(op, kind, lm, a0, o0, val0, val, a, k)
    ensures kind == MERGE_INTO_LEFT ==>
      Meaning(a, val) == CombineInto(op, Initial(lm, o0, val0), Meaning(a0, val0), Meaning(o0, val0))
    ensures kind == MERGE_INTO_RIGHT ==> Meaning(a, val) == Combine(op, Meaning(o0, val0), Meaning(a0, val0))
  {
    assert Meaning(a, val).Keys == a.Keys;
  }

  lemma OwnedMeaning<T>(a: map<nat, Entry>, val: map<nat, T>, heap: set<nat>, keyOf: map<nat, nat>)
    requires Owns(a, val, heap, keyOf)
    ensures Meaning(a, val).Keys == a.Keys && forall k :: k in a ==> Meaning(a, val)[k] == val[a[k].view]
  {
  }

  /** What one key ends up with. */
  lemma MergedKey<T>(op: (nat, T, T) -> T, kind: MergeKind, lm: bool, a0: map<nat, Entry>, o0: map<nat, Entry>,
                     a: map<nat, Entry>, o: map<nat, Entry>, val0: map<nat, T>, val: map<nat, T>, heap: set<nat>, keyOf: map<nat, nat>, k: nat)
    requires Mergeable(lm, a0, o0, val0, heap, keyOf) && (lm ==> kind == MERGE_INTO_LEFT) && k in a
    requires ContentsAfter(kind, lm, a0, o0, o0.Keys, a, o) && ValuesAfter(op, kind, lm, a0, o0, o0.Keys, val0, val, keyOf)
    ensures a[k].view in val
    ensures k in a0 ==> a0[k].view in val0
    ensures k in o0 ==> o0[k].view in val0
    ensures k !in o0 ==> k in a0 && val[a[k].view] == val0[a0[k].view]
    ensures k in o0 && k in a0 && kind == MERGE_INTO_LEFT ==> val[a[k].view] == op(k, val0[a0[k].view], val0[o0[k].view])
    ensures k in o0 && k in a0 && kind == MERGE_INTO_RIGHT ==> val[a[k].view] == op(k, val0[o0[k].view], val0[a0[k].view])
    ensures k in o0 && k !in a0 && lm && o0[k].view != k ==> k in val0 && val[a[k].view] == op(k, val0[k], val0[o0[k].view])
    ensures k in o0 && k !in a0 && !(lm && o0[k].view != k) ==> val[a[k].view] == val0[o0[k].view]
  {
    if k in o0 {
      ViewBelongs(kind, lm, a0, o0, val0, heap, keyOf, k);
    }
  }

  lemma MergedHeap<T>(kind: MergeKind, lm: bool, a0: map<nat, Entry>, o0: map<nat, Entry>,
                      a: map<nat, Entry>, o: map<nat, Entry>, val0: map<nat, T>, heap0: set<nat>, heap: set<nat>, keyOf: map<nat, nat>)
    requires Mergeable(lm, a0, o0, val0, heap0, keyOf) && (lm ==> kind == MERGE_INTO_LEFT)
    requires ContentsAfter(kind, lm, a0, o0, o0.Keys, a, o) && 0 !in heap0
    requires Gone(heap0, heap, o, keyOf)
    ensures Kept(heap0, heap, a0, o0, a, keyOf)
  {
    forall v | v in heap0 ensures Holds(o, keyOf, v) <==> (Holds(a0, keyOf, v) || Holds(o0, keyOf, v)) && !Holds(a, keyOf, v) {
      if v in keyOf {
        HeldOnce(kind, lm, a0, o0, a, o, val0, heap0, keyOf, v);
      }
    }
  }

  /** A view the runtime allocated that was in one of the maps is in exactly one of them after. */
  lemma HeldOnce<T>(kind: MergeKind, lm: bool, a0: map<nat, Entry>, o0: map<nat, Entry>,
                    a: map<nat, Entry>, o: map<nat, Entry>, val0: map<nat, T>, heap0: set<nat>, keyOf: map<nat, nat>, v: nat)
    requires Mergeable(lm, a0, o0, val0, heap0, keyOf) && (lm ==> kind == MERGE_INTO_LEFT)
    requires ContentsAfter(kind, lm, a0, o0, o0.Keys, a, o) && v in heap0 && v in keyOf && 0 !in heap0
    ensures Holds(o, keyOf, v) <==> (Holds(a0, keyOf, v) || Holds(o0, keyOf, v)) && !Holds(a, keyOf, v)
  {
    var k := keyOf[v];
    if k in o0 {
      assert a[k] == ThisEntry(kind, lm, Get(a0, k), k, o0[k]) && o[k] == OtherEntry(kind, lm, Get(a0, k), k, o0[k]);
    }
  }

  /** What is in the map that is destroyed, and what stays. */
  lemma MergedOwns<T>(op: (nat, T, T) -> T, kind: MergeKind, lm: bool, a0: map<nat, Entry>, o0: map<nat, Entry>,
                      a: map<nat, Entry>, o: map<nat, Entry>, val0: map<nat, T>, val: map<nat, T>, heap0: set<nat>, keyOf: map<nat, nat>)
    requires Mergeable(lm, a0, o0, val0, heap0, keyOf) && (lm ==> kind == MERGE_INTO_LEFT)
    requires ContentsAfter(kind, lm, a0, o0, o0.Keys, a, o) && val.Keys == val0.Keys
    ensures Doomed(o, heap0, keyOf) && Owns(a, val, heap0, keyOf)
    ensures lm && AllLeftmost(a0) ==> AllLeftmost(a)
  {
  }

  /** The surviving view is always the left strand's own object, if it has one, whichever way the
      merge goes; in a leftmost map it is the leftmost view. */
  ghost predicate LeftObjects(lm: bool, l: map<nat, Entry>, r: map<nat, Entry>, m: map<nat, Entry>) {
    && m.Keys == l.Keys + r.Keys
    && forall k :: k in m ==> m[k].view == if k in l then l[k].view else if lm then k else r[k].view
  }

  /** No view changes but those of the surviving map. */
  ghost predicate OthersKept<T>(val0: map<nat, T>, val: map<nat, T>, a: map<nat, Entry>, keyOf: map<nat, nat>) {
    val.Keys == val0.Keys && forall v :: v in val0 && !Holds(a, keyOf, v) ==> val[v] == val0[v]
  }

  lemma MergedObjects(kind: MergeKind, lm: bool, a0: map<nat, Entry>, o0: map<nat, Entry>, a: map<nat, Entry>, o: map<nat, Entry>)
    requires ContentsAfter(kind, lm, a0, o0, o0.Keys, a, o) && (lm ==> kind == MERGE_INTO_LEFT)
    ensures kind == MERGE_INTO_LEFT ==> LeftObjects(lm, a0, o0, a)
    ensures kind == MERGE_INTO_RIGHT ==> LeftObjects(false, o0, a0, a)
  {
  }

  /** The element of a key has the hyperobject base that one of the two maps had for that key. */
  ghost predicate BasesFrom(l: map<nat, Entry>, r: map<nat, Entry>, m: map<nat, Entry>) {
    forall k :: k in m ==> (k in l && m[k].hb == l[k].hb) || (k in r && m[k].hb == r[k].hb)
  }

  lemma MergedBases(kind: MergeKind, lm: bool, a0: map<nat, Entry>, o0: map<nat, Entry>, a: map<nat, Entry>, o: map<nat, Entry>)
    requires ContentsAfter(kind, lm, a0, o0, o0.Keys, a, o)
    ensures BasesFrom(a0, o0, a)
    ensures forall k :: k in a && k in a0 ==> a[k].hb == a0[k].hb
  {
  }

  lemma BasesSym(l: map<nat, Entry>, r: map<nat, Entry>, m: map<nat, Entry>)
    requires BasesFrom(r, l, m)
    ensures BasesFrom(l, r, m)
  {
  }

  /** Every element has the base of the reducer that its key stands for. */
  ghost predicate Based(c: map<nat, Entry>, base: map<nat, nat>) {
    forall k :: k in c ==> k in base && c[k].hb == base[k]
  }

  /** The base of a key is the one that some strand's map had for it. */
  ghost predicate BasesOf(cs: seq<map<nat, Entry>>, c: map<nat, Entry>) {
    forall k :: k in c ==> exists j :: 0 <= j < |cs| && k in cs[j] && c[k].hb == cs[j][k].hb
  }

  ghost predicate AllBased(cs: seq<map<nat, Entry>>, base: map<nat, nat>) {
    forall j :: 0 <= j < |cs| ==> Based(cs[j], base)
  }

  lemma BasesBelong(cs: seq<map<nat, Entry>>, c: map<nat, Entry>, base: map<nat, nat>)
    requires BasesOf(cs, c) && AllBased(cs, base)
    ensures Based(c, base)
  {
    forall k | k in c ensures k in base && c[k].hb == base[k] {
      var j :| 0 <= j < |cs| && k in cs[j] && c[k].hb == cs[j][k].hb;
      assert Based(cs[j], base);
    }
  }

  lemma JoinBases(a: seq<map<nat, Entry>>, b: seq<map<nat, Entry>>, c: map<nat, Entry>, d: map<nat, Entry>, m: map<nat, Entry>)
    requires BasesOf(a, c) && BasesOf(b, d) && BasesFrom(c, d, m)
    ensures BasesOf(a + b, m)
  {
    var ab: seq<map<nat, Entry>> := a + b;
    forall k | k in m ensures exists j :: 0 <= j < |ab| && k in ab[j] && m[k].hb == ab[j][k].hb {
      if k in c && m[k].hb == c[k].hb {
        var j :| 0 <= j < |a| && k in a[j] && c[k].hb == a[j][k].hb;
        assert ab[j] == a[j];
      } else {
        var j :| 0 <= j < |b| && k in b[j] && d[k].hb == b[j][k].hb;
        assert ab[|a| + j] == b[j];
      }
    }
  }

  lemma LeafBases(c: map<nat, Entry>)
    ensures BasesOf([c], c)
  {
    assert [c][0] == c;
  }

  lemma MergedFrame<T>(op: (nat, T, T) -> T, kind: MergeKind, lm: bool, a0: map<nat, Entry>, o0: map<nat, Entry>,
                       a: map<nat, Entry>, o: map<nat, Entry>, val0: map<nat, T>, val: map<nat, T>, keyOf: map<nat, nat>)
    requires ContentsAfter(kind, lm, a0, o0, o0.Keys, a, o) && ValuesAfter(op, kind, lm, a0, o0, o0.Keys, val0, val, keyOf)
    ensures OthersKept(val0, val, a, keyOf)
  {
    hide ValueOf, ThisEntry, OtherEntry;
    forall v | v in val0 && !Holds(a, keyOf, v) ensures val[v] == val0[v] {
      assert !Written(kind, lm, a0, o0, o0.Keys, keyOf, v);
    }
  }

  lemma OwnsStill<T>(l: map<nat, Entry>, r: map<nat, Entry>, a: map<nat, Entry>, val: map<nat, T>, heap0: set<nat>, heap: set<nat>, keyOf: map<nat, nat>)
    requires Owns(a, val, heap0, keyOf) && Kept(heap0, heap, l, r, a, keyOf)
    ensures Owns(a, val, heap, keyOf)
  {
  }

  /** The surviving map has all keys, means what the strands mean merged in their order, has the left
      strand's objects, and no view outside of it has changed. */
  ghost predicate Merges<T>(op: (nat, T, T) -> T, kind: MergeKind, lm: bool, a0: map<nat, Entry>, o0: map<nat, Entry>,
                            val0: map<nat, T>, a: map<nat, Entry>, val: map<nat, T>, keyOf: map<nat, nat>) {
    && a.Keys == a0.Keys + o0.Keys && val.Keys == val0.Keys && OthersKept(val0, val, a, keyOf)
    && (kind == MERGE_INTO_LEFT ==>
          && Meaning(a, val) == CombineInto(op, Initial(lm, o0, val0), Meaning(a0, val0), Meaning(o0, val0))
          && LeftObjects(lm, a0, o0, a))
    && (kind == MERGE_INTO_RIGHT ==>
          Meaning(a, val) == Combine(op, Meaning(o0, val0), Meaning(a0, val0)) && LeftObjects(false, o0, a0, a))
    && (lm && AllLeftmost(a0) ==> AllLeftmost(a)) && BasesFrom(a0, o0, a)
  }

  /** What the loops come to, before the other map is destroyed. */
  lemma MergedFacts<T>(op: (nat, T, T) -> T, kind: MergeKind, lm: bool, a0: map<nat, Entry>, o0: map<nat, Entry>,
                       a: map<nat, Entry>, o: map<nat, Entry>, val0: map<nat, T>, val: map<nat, T>, heap0: set<nat>, keyOf: map<nat, nat>)
    requires Mergeable(lm, a0, o0, val0, heap0, keyOf) && (lm ==> kind == MERGE_INTO_LEFT)
    requires ContentsAfter(kind, lm, a0, o0, o0.Keys, a, o) && ValuesAfter(op, kind, lm, a0, o0, o0.Keys, val0, val, keyOf)
    ensures Doomed(o, heap0, keyOf) && Owns(a, val, heap0, keyOf) && Merges(op, kind, lm, a0, o0, val0, a, val, keyOf)
  {
    hide Mergeable, ContentsAfter, ValuesAfter, Owns, AllLeftmost, Initial, Meaning, CombineInto, Combine, Doomed, LeftObjects, OthersKept, BasesFrom;
    MergedBases(kind, lm, a0, o0, a, o);
    KeysAfter(op, kind, lm, a0, o0, o0.Keys, a, o, val0, val, keyOf);
    MergedMeaning(op, kind, lm, a0, o0, a, o, val0, val, heap0, keyOf);
    MergedOwns(op, kind, lm, a0, o0, a, o, val0, val, heap0, keyOf);
    MergedObjects(kind, lm, a0, o0, a, o);
    MergedFrame(op, kind, lm, a0, o0, a, o, val0, val, keyOf);
  }

  method Merge<T>(this_: RedMap, other: RedMap, store: Views<T>, op: (nat, T, T) -> T, kind: MergeKind)
    requires this_ != other && this_.Valid() && other.Valid() && !other.isLeftmost && 0 !in store.heap
    requires Mergeable(this_.isLeftmost, this_.contents, other.contents, store.val, store.heap, store.keyOf)
    requires this_.isLeftmost ==> kind == MERGE_INTO_LEFT
    modifies this_`nbuckets, this_`buckets, this_`nelem, this_`contents, this_`logSize
    modifies other`buckets, other`contents, store`val, store`heap
    ensures this_.Valid() && Owns(this_.contents, store.val, store.heap, store.keyOf)
    ensures Merges(op, kind, this_.isLeftmost, old(this_.contents), old(other.contents), old(store.val), this_.contents, store.val, store.keyOf)
    ensures Kept(old(store.heap), store.heap, old(this_.contents), old(other.contents), this_.contents, store.keyOf)
  {
    hide *;
    ghost var a0, o0, val0 := this_.contents, other.contents, store.val;
    MergeContents(this_, other, store, op, kind, a0, o0, val0);
    FinishMerge(this_, other, store, kind, a0, o0, val0);
  }

  /** All but the destruction of the other map. */
  method MergeContents<T>(this_: RedMap, other: RedMap, store: Views<T>, op: (nat, T, T) -> T, kind: MergeKind,
                          ghost a0: map<nat, Entry>, ghost o0: map<nat, Entry>, ghost val0: map<nat, T>)
    requires this_ != other && this_.Valid() && other.Valid() && (this_.isLeftmost ==> kind == MERGE_INTO_LEFT)
    requires a0 == this_.contents && o0 == other.contents && val0 == store.val
    requires Mergeable(this_.isLeftmost, a0, o0, val0, store.heap, store.keyOf)
    modifies this_`nbuckets, this_`buckets, this_`nelem, this_`contents, this_`logSize
    modifies other`buckets, other`contents, store`val
    ensures this_.Valid() && other.Valid()
    ensures ContentsAfter(kind, this_.isLeftmost, a0, o0, o0.Keys, this_.contents, other.contents)
    ensures Doomed(other.contents, store.heap, store.keyOf) && Owns(this_.contents, store.val, store.heap, store.keyOf)
    ensures Merges(op, kind, this_.isLeftmost, a0, o0, val0, this_.contents, store.val, store.keyOf)
  {
    hide *;
    MergeBuckets(this_, other, store, op, kind);
    MergedFacts(op, kind, this_.isLeftmost, a0, o0, this_.contents, other.contents, val0, store.val, store.heap, store.keyOf);
  }

  method FinishMerge<T>(this_: RedMap, other: RedMap, store: Views<T>, kind: MergeKind,
                        ghost a0: map<nat, Entry>, ghost o0: map<nat, Entry>, ghost val0: map<nat, T>)
    requires other.Valid() && 0 !in store.heap && (this_.isLeftmost ==> kind == MERGE_INTO_LEFT)
    requires Mergeable(this_.isLeftmost, a0, o0, val0, store.heap, store.keyOf)
    requires ContentsAfter(kind, this_.isLeftmost, a0, o0, o0.Keys, this_.contents, other.contents)
    requires Doomed(other.contents, store.heap, store.keyOf) && Owns(this_.contents, store.val, store.heap, store.keyOf)
    modifies store`heap
    ensures Kept(old(store.heap), store.heap, a0, o0, this_.contents, store.keyOf)
    ensures Owns(this_.contents, store.val, store.heap, store.keyOf)
  {
    hide Represents, Mergeable, ContentsAfter, Holds, Owns, Doomed, Gone, Kept;
    ghost var heap0 := store.heap;
    DestroyReducerMap(store, other);
    MergedHeap(kind, this_.isLeftmost, a0, o0, this_.contents, other.contents, val0, heap0, store.heap, store.keyOf);
    OwnsStill(a0, o0, this_.contents, store.val, heap0, store.heap, store.keyOf);
  }

  /** The two nested loops over the other map's elements. */
  method MergeBuckets<T>(this_: RedMap, other: RedMap, store: Views<T>, op: (nat, T, T) -> T, kind: MergeKind)
    requires this_ != other && this_.Valid() && other.Valid() && (this_.isLeftmost ==> kind == MERGE_INTO_LEFT)
    requires Mergeable(this_.isLeftmost, this_.contents, other.contents, store.val, store.heap, store.keyOf)
    modifies this_`nbuckets, this_`buckets, this_`nelem, this_`contents, this_`logSize
    modifies other`buckets, other`contents, store`val
    ensures this_.Valid() && other.Valid()
    ensures ContentsAfter(kind, this_.isLeftmost, old(this_.contents), old(other.contents), old(other.contents.Keys), this_.contents, other.contents)
    ensures ValuesAfter(op, kind, this_.isLeftmost, old(this_.contents), old(other.contents), old(other.contents.Keys),
                        old(store.val), store.val, store.keyOf)
  {
    ghost var a0, o0, val0 := this_.contents, other.contents, store.val;
    hide Represents, Used, HashFun, Mergeable, ContentsAfter, ValuesAfter, Walked, NonNull, RedMap.Valid;
    MergeStart(op, kind, this_.isLeftmost, a0, o0, val0, store.heap, store.keyOf, other.buckets);
    ghost var done := WalkBuckets(this_, other, store, op, kind, a0, o0, val0);
    WalkedTable(op, kind, this_.isLeftmost, a0, o0, done, this_.contents, other, val0, store.val, store.keyOf);
  }

  /** The loops have merged the keys in `done`, which are those of the buckets before `i`. */
  ghost predicate Walking<T>(this_: RedMap, other: RedMap, store: Views<T>, op: (nat, T, T) -> T, kind: MergeKind,
                             a0: map<nat, Entry>, o0: map<nat, Entry>, val0: map<nat, T>, done: set<nat>, i: nat)
    reads this_, other, store
  {
    && this_ != other && (this_.isLeftmost ==> kind == MERGE_INTO_LEFT)
    && Mergeable(this_.isLeftmost, a0, o0, val0, store.heap, store.keyOf)
    && this_.Valid() && other.Valid() && NonNull(this_.contents) && Walked(other.buckets, done, i, 0)
    && ContentsAfter(kind, this_.isLeftmost, a0, o0, done, this_.contents, other.contents)
    && ValuesAfter(op, kind, this_.isLeftmost, a0, o0, done, val0, store.val, store.keyOf)
  }

  method WalkBuckets<T>(this_: RedMap, other: RedMap, store: Views<T>, op: (nat, T, T) -> T, kind: MergeKind,
                        ghost a0: map<nat, Entry>, ghost o0: map<nat, Entry>, ghost val0: map<nat, T>) returns (ghost done: set<nat>)
    requires Walking(this_, other, store, op, kind, a0, o0, val0, {}, 0)
    modifies this_`nbuckets, this_`buckets, this_`nelem, this_`contents, this_`logSize
    modifies other`buckets, other`contents, store`val
    ensures Walking(this_, other, store, op, kind, a0, o0, val0, done, |other.buckets|)
  {
    hide Mergeable, ContentsAfter, ValuesAfter, Walked, NonNull, Represents, Used, HashFun;
    assert |other.buckets| == other.nbuckets;
    hide RedMap.Valid;
    done := {};
    var i := 0;
    while i < other.nbuckets
      invariant 0 <= i <= |other.buckets| == other.nbuckets
      invariant Walking(this_, other, store, op, kind, a0, o0, val0, done, i)
    {
      done := MergeBucket(this_, other, store, op, kind, i, a0, o0, val0, done);
      i := i + 1;
    }
  }

  /** After the loops every key has been met. */
  lemma WalkedTable<T>(op: (nat, T, T) -> T, kind: MergeKind, lm: bool, a0: map<nat, Entry>, o0: map<nat, Entry>, done: set<nat>,
                       a: map<nat, Entry>, other: RedMap, val0: map<nat, T>, val: map<nat, T>, keyOf: map<nat, nat>)
    requires other.Valid() && Walked(other.buckets, done, |other.buckets|, 0)
    requires ContentsAfter(kind, lm, a0, o0, done, a, other.contents) && ValuesAfter(op, kind, lm, a0, o0, done, val0, val, keyOf)
    ensures done == o0.Keys
  {
    KeysAfter(op, kind, lm, a0, o0, done, a, other.contents, val0, val, keyOf);
    hide Represents, ContentsAfter, ValuesAfter, Walked;
    WalkedAll(other.buckets, other.contents, done, |other.buckets|);
  }

  lemma KeysAfter<T>(op: (nat, T, T) -> T, kind: MergeKind, lm: bool, a0: map<nat, Entry>, o0: map<nat, Entry>, done: set<nat>,
                     a: map<nat, Entry>, o: map<nat, Entry>, val0: map<nat, T>, val: map<nat, T>, keyOf: map<nat, nat>)
    requires ContentsAfter(kind, lm, a0, o0, done, a, o) && ValuesAfter(op, kind, lm, a0, o0, done, val0, val, keyOf)
    ensures a.Keys == a0.Keys + done && done <= o.Keys == o0.Keys && val.Keys == val0.Keys
  {
  }

  lemma MergeStart<T>(op: (nat, T, T) -> T, kind: MergeKind, lm: bool, a0: map<nat, Entry>, o0: map<nat, Entry>,
                      val0: map<nat, T>, heap: set<nat>, keyOf: map<nat, nat>, buckets: seq<seq<Elem>>)
    requires Mergeable(lm, a0, o0, val0, heap, keyOf)
    ensures ContentsAfter(kind, lm, a0, o0, {}, a0, o0) && ValuesAfter(op, kind, lm, a0, o0, {}, val0, val0, keyOf)
    ensures NonNull(a0) && Walked(buckets, {}, 0, 0)
  {
  }

  /** Merge the right map into the left one or the left one into the right, whichever has more
      elements; always into a leftmost map.  The result means the same either way. */
  method MergeReducerMaps<T>(left: RedMap?, right: RedMap?, store: Views<T>, op: (nat, T, T) -> T) returns (m: RedMap?)
    requires left != null ==> left.Valid() && Owns(left.contents, store.val, store.heap, store.keyOf)
    requires right != null ==> right.Valid() && Owns(right.contents, store.val, store.heap, store.keyOf)
    requires left != null && right != null ==>
      && left != right && !right.isLeftmost
      && Mergeable(left.isLeftmost, left.contents, right.contents, store.val, store.heap, store.keyOf)
    requires 0 !in store.heap
    modifies left, right, store`val, store`heap
    ensures left == null ==> m == right
    ensures right == null ==> m == left
    ensures left == null || right == null ==>
      store.val == old(store.val) && store.heap == old(store.heap) && (m != null ==> m.Valid() && m.contents == old(m.contents))
    ensures m != null ==> m.Valid() && Owns(m.contents, store.val, store.heap, store.keyOf)
    ensures m != null ==> m.isLeftmost == old(if left != null then left.isLeftmost else right.isLeftmost)
    ensures left != null && right != null ==>
      && m != null && m in {left, right} && (m == left <==> old(left.isLeftmost || |left.contents| > |right.contents|))
      && Meaning(m.contents, store.val)
           == old(CombineInto(op, Initial(left.isLeftmost, right.contents, store.val),
                              Meaning(left.contents, store.val), Meaning(right.contents, store.val)))
      && LeftObjects(m.isLeftmost, old(left.contents), old(right.contents), m.contents)
      && BasesFrom(old(left.contents), old(right.contents), m.contents)
      && OthersKept(old(store.val), store.val, m.contents, store.keyOf)
      && Kept(old(store.heap), store.heap, old(left.contents), old(right.contents), m.contents, store.keyOf)
  {
    if left == null {
      return right;
    }
    if right == null {
      return left;
    }
    hide Owns, Meaning, CombineInto, Represents, Holds, OthersKept, Kept, Mergeable, LeftObjects, Initial, BasesFrom;
    m := MergeLarger(left, right, store, op);
  }

  method MergeLarger<T>(left: RedMap, right: RedMap, store: Views<T>, op: (nat, T, T) -> T) returns (m: RedMap)
    requires left.Valid() && right.Valid() && left != right && !right.isLeftmost && 0 !in store.heap
    requires Mergeable(left.isLeftmost, left.contents, right.contents, store.val, store.heap, store.keyOf)
    modifies left, right, store`val, store`heap
    ensures m.Valid() && Owns(m.contents, store.val, store.heap, store.keyOf) && m in {left, right}
    ensures m == left <==> old(left.isLeftmost || |left.contents| > |right.contents|)
    ensures m.isLeftmost == old(left.isLeftmost)
    ensures Meaning(m.contents, store.val)
         == old(CombineInto(op, Initial(left.isLeftmost, right.contents, store.val),
                            Meaning(left.contents, store.val), Meaning(right.contents, store.val)))
    ensures LeftObjects(m.isLeftmost, old(left.contents), old(right.contents), m.contents)
    ensures BasesFrom(old(left.contents), old(right.contents), m.contents)
    ensures OthersKept(old(store.val), store.val, m.contents, store.keyOf)
    ensures Kept(old(store.heap), store.heap, old(left.contents), old(right.contents), m.contents, store.keyOf)
  {
    hide Owns, Meaning, CombineInto, Represents, Holds, OthersKept, Kept, Mergeable, LeftObjects, Initial, AllLeftmost, BasesFrom;
    ghost var l, r, heap0 := left.contents, right.contents, store.heap;
    if left.isLeftmost || left.nelem > right.nelem {
      Merge(left, right, store, op, MERGE_INTO_LEFT);
      m := left;
    } else {
      MergeableSym(l, r, store.val, store.heap, store.keyOf);
      NoInitial(r, store.val);
      Merge(right, left, store, op, MERGE_INTO_RIGHT);
      m := right;
      KeptSym(heap0, store.heap, l, r, m.contents, store.keyOf);
      BasesSym(l, r, m.contents);
    }
  }

  lemma KeptSmaller(heap0: set<nat>, heap: set<nat>, l: map<nat, Entry>, r: map<nat, Entry>, m: map<nat, Entry>, keyOf: map<nat, nat>)
    requires Kept(heap0, heap, l, r, m, keyOf)
    ensures heap <= heap0
  {
  }

  lemma KeptSym(heap0: set<nat>, heap: set<nat>, l: map<nat, Entry>, r: map<nat, Entry>, m: map<nat, Entry>, keyOf: map<nat, nat>)
    requires Kept(heap0, heap, r, l, m, keyOf)
    ensures Kept(heap0, heap, l, r, m, keyOf)
  {
  }

  lemma MergeableSym<T>(a: map<nat, Entry>, o: map<nat, Entry>, val: map<nat, T>, heap: set<nat>, keyOf: map<nat, nat>)
    requires Mergeable(false, a, o, val, heap, keyOf)
    ensures Mergeable(false, o, a, val, heap, keyOf)
  {
  }

  lemma NoInitial<T>(o: map<nat, Entry>, val: map<nat, T>)
    ensures Initial(false, o, val) == map[]
  {
  }

  // ---------------------------------------------------------------- repeated merging

  /** The maps still to be merged from the left, in serial order, with `acc` the result so far. */
  ghost predicate Joinable<T>(lm: bool, acc: map<nat, Entry>, rest: seq<map<nat, Entry>>, val: map<nat, T>, heap: set<nat>, keyOf: map<nat, nat>) {
    && Owns(acc, val, heap, keyOf)
    && (forall n :: 0 <= n < |rest| ==> Owns(rest[n], val, heap, keyOf) && Follows(acc, rest[n]))
    && (forall n, p :: 0 <= n < p < |rest| ==> Follows(rest[n], rest[p]))
    && (lm ==> forall n, k :: 0 <= n < |rest| && k in rest[n] ==> k in val && k in keyOf && keyOf[k] == k && k != 0)
  }

  /** No shared view, and a reducer that an earlier strand used has its leftmost view elsewhere. */
  ghost predicate Follows(a: map<nat, Entry>, o: map<nat, Entry>) {
    forall k :: k in a && k in o ==> a[k].view != o[k].view && o[k].view != k
  }

  /** Merging from left to right. */
  ghost function FoldMaps<T>(op: (nat, T, T) -> T, lm: bool, acc: map<nat, T>, rest: seq<map<nat, Entry>>, val: map<nat, T>): map<nat, T>
    decreases |rest|
  {
    if rest == [] then acc
    else FoldMaps(op, lm, CombineInto(op, Initial(lm, rest[0], val), acc, Meaning(rest[0], val)), rest[1..], val)
  }

  lemma JoinStep<T>(lm: bool, acc: map<nat, Entry>, rest: seq<map<nat, Entry>>, a: map<nat, Entry>,
                    val0: map<nat, T>, val: map<nat, T>, heap0: set<nat>, heap: set<nat>, keyOf: map<nat, nat>)
    requires rest != [] && Joinable(lm, acc, rest, val0, heap0, keyOf) && LeftObjects(lm, acc, rest[0], a)
    requires OthersKept(val0, val, a, keyOf) && Owns(a, val, heap, keyOf)
    requires Kept(heap0, heap, acc, rest[0], a, keyOf)
    ensures Joinable(lm, a, rest[1..], val, heap, keyOf)
    ensures forall n :: 1 <= n < |rest| ==> Meaning(rest[n], val) == Meaning(rest[n], val0)
    ensures forall n, k :: 1 <= n < |rest| && k in rest[n] && k !in a && lm ==> k in val && val[k] == val0[k]
  {
    forall n | 1 <= n < |rest| ensures Owns(rest[n], val, heap, keyOf) && Follows(a, rest[n]) && Meaning(rest[n], val) == Meaning(rest[n], val0) {
      LaterKept(lm, acc, rest[0], rest[n], a, val0, val, heap0, heap, keyOf);
    }
    forall n, k | 1 <= n < |rest| && k in rest[n] && lm
      ensures k in val && k in keyOf && keyOf[k] == k && k != 0 && (k !in a ==> val[k] == val0[k])
    {
      assert k in val0 && keyOf[k] == k;
      assert k !in a ==> !Holds(a, keyOf, k);
    }
    hide Owns, Follows, Meaning, LeftObjects, OthersKept, Kept, Holds;
    var later := rest[1..];
    forall n | 0 <= n < |later| ensures later[n] == rest[n + 1] && Owns(later[n], val, heap, keyOf) && Follows(a, later[n]) {
    }
    forall n, p | 0 <= n < p < |later| ensures Follows(later[n], later[p]) {
      assert Follows(rest[n + 1], rest[p + 1]);
    }
  }

  lemma LaterKept<T>(lm: bool, acc: map<nat, Entry>, o: map<nat, Entry>, later: map<nat, Entry>, a: map<nat, Entry>,
                     val0: map<nat, T>, val: map<nat, T>, heap0: set<nat>, heap: set<nat>, keyOf: map<nat, nat>)
    requires Owns(later, val0, heap0, keyOf) && Follows(acc, later) && Follows(o, later) && LeftObjects(lm, acc, o, a)
    requires OthersKept(val0, val, a, keyOf)
    requires Kept(heap0, heap, acc, o, a, keyOf)
    ensures Follows(a, later) && Owns(later, val, heap, keyOf) && Meaning(later, val) == Meaning(later, val0)
  {
    forall k | k in later ensures val[later[k].view] == val0[later[k].view] && !Holds(acc, keyOf, later[k].view) && !Holds(o, keyOf, later[k].view) {
      assert keyOf[later[k].view] == k;
    }
  }

  lemma {:induction false} FoldSame<T>(op: (nat, T, T) -> T, lm: bool, acc: map<nat, T>, rest: seq<map<nat, Entry>>, val0: map<nat, T>, val: map<nat, T>)
    requires forall n :: 0 <= n < |rest| ==> Meaning(rest[n], val) == Meaning(rest[n], val0)
    requires forall n, k :: 0 <= n < |rest| && k in rest[n] && k !in acc && lm ==> k in val && k in val0 && val[k] == val0[k]
    requires forall n :: 0 <= n < |rest| ==> Meaning(rest[n], val).Keys == rest[n].Keys
    ensures FoldMaps(op, lm, acc, rest, val) == FoldMaps(op, lm, acc, rest, val0)
    decreases |rest|
  {
    if rest != [] {
      var r := Meaning(rest[0], val);
      var c := CombineInto(op, Initial(lm, rest[0], val), acc, r);
      assert c == CombineInto(op, Initial(lm, rest[0], val0), acc, r);
      FoldSame(op, lm, c, rest[1..], val0, val);
    }
  }

  ghost function ContentsOf(maps: seq<RedMap>): (cs: seq<map<nat, Entry>>)
    reads maps
    ensures |cs| == |maps| && forall n :: 0 <= n < |maps| ==> cs[n] == maps[n].contents
  {
    seq(|maps|, n requires 0 <= n < |maps| reads maps => maps[n].contents)
  }

  /** Merge the right map into the left, then every map that the merging itself gave rise to: each
      of those is later in serial order, so it is folded on the right. */
  method RepeatedMergeReducerMaps<T>(first: RedMap, maps: seq<RedMap>, store: Views<T>, op: (nat, T, T) -> T) returns (left: RedMap)
    requires first.Valid() && 0 !in store.heap && first !in maps
    requires forall n :: 0 <= n < |maps| ==> maps[n].Valid() && !maps[n].isLeftmost
    requires forall n, p :: 0 <= n < p < |maps| ==> maps[n] != maps[p]
    requires Joinable(first.isLeftmost, first.contents, ContentsOf(maps), store.val, store.heap, store.keyOf)
    modifies first, maps, store`val, store`heap
    ensures left.Valid() && Owns(left.contents, store.val, store.heap, store.keyOf)
    ensures Meaning(left.contents, store.val)
         == old(FoldMaps(op, first.isLeftmost, Meaning(first.contents, store.val), ContentsOf(maps), store.val))
    ensures BasesOf([old(first.contents)] + old(ContentsOf(maps)), left.contents)
  {
    hide Represents, Meaning, Owns, Joinable, FoldMaps, BasesOf, BasesFrom;
    LeafBases(first.contents);
    assert [first.contents] + ContentsOf(maps)[..0] == [first.contents];
    left := first;
    ghost var lm := first.isLeftmost;
    var n := 0;
    while n < |maps|
      invariant 0 <= n <= |maps| && left.Valid() && left.isLeftmost == lm && left !in maps[n..] && 0 !in store.heap
      invariant left == first || left in maps
      invariant store.keyOf == old(store.keyOf)
      invariant forall p :: n <= p < |maps| ==> maps[p].Valid() && !maps[p].isLeftmost && maps[p].contents == old(maps[p].contents)
      invariant Joinable(lm, left.contents, old(ContentsOf(maps))[n..], store.val, store.heap, store.keyOf)
      invariant FoldMaps(op, lm, Meaning(left.contents, store.val), old(ContentsOf(maps))[n..], store.val)
             == old(FoldMaps(op, first.isLeftmost, Meaning(first.contents, store.val), ContentsOf(maps), store.val))
      invariant BasesOf([old(first.contents)] + old(ContentsOf(maps))[..n], left.contents)
    {
      ghost var rest, before := old(ContentsOf(maps))[n..], left.contents;
      left := MergeNextMap(left, maps[n], store, op, rest);
      NextBases(old(first.contents), old(ContentsOf(maps)), n, before, left.contents);
      n := n + 1;
      assert rest[1..] == old(ContentsOf(maps))[n..];
    }
    assert old(ContentsOf(maps))[n..] == [] && old(ContentsOf(maps))[..n] == old(ContentsOf(maps));
    FoldEnd(op, lm, left.contents, store.val, store.heap, store.keyOf);
  }

  lemma NextBases(first: map<nat, Entry>, cs: seq<map<nat, Entry>>, n: nat, c: map<nat, Entry>, m: map<nat, Entry>)
    requires n < |cs| && BasesOf([first] + cs[..n], c) && BasesFrom(c, cs[n], m)
    ensures BasesOf([first] + cs[..n + 1], m)
  {
    LeafBases(cs[n]);
    JoinBases([first] + cs[..n], [cs[n]], c, cs[n], m);
    assert [first] + cs[..n] + [cs[n]] == [first] + cs[..n + 1];
  }

  lemma FoldEnd<T>(op: (nat, T, T) -> T, lm: bool, a: map<nat, Entry>, val: map<nat, T>, heap: set<nat>, keyOf: map<nat, nat>)
    requires Joinable(lm, a, [], val, heap, keyOf)
    ensures Owns(a, val, heap, keyOf) && FoldMaps(op, lm, Meaning(a, val), [], val) == Meaning(a, val)
  {
  }

  method MergeNextMap<T>(left: RedMap, right: RedMap, store: Views<T>, op: (nat, T, T) -> T, ghost rest: seq<map<nat, Entry>>)
      returns (m: RedMap)
    requires left.Valid() && right.Valid() && left != right && !right.isLeftmost && 0 !in store.heap
    requires rest != [] && rest[0] == right.contents
    requires Joinable(left.isLeftmost, left.contents, rest, store.val, store.heap, store.keyOf)
    modifies left, right, store`val, store`heap
    ensures m.Valid() && m in {left, right} && m.isLeftmost == old(left.isLeftmost) && 0 !in store.heap
    ensures Joinable(m.isLeftmost, m.contents, rest[1..], store.val, store.heap, store.keyOf)
    ensures FoldMaps(op, m.isLeftmost, Meaning(m.contents, store.val), rest[1..], store.val)
         == old(FoldMaps(op, left.isLeftmost, Meaning(left.contents, store.val), rest, store.val))
    ensures BasesFrom(old(left.contents), rest[0], m.contents)
  {
    hide Represents, Meaning, CombineInto, Holds, Owns, Joinable, FoldMaps, LeftObjects, OthersKept, Kept, Initial, Mergeable, BasesFrom;
    ghost var lm, acc, val0, heap0 := left.isLeftmost, left.contents, store.val, store.heap;
    JoinableHead(lm, acc, rest, val0, heap0, store.keyOf);
    m := MergeReducerMaps(left, right, store, op);
    KeptSmaller(heap0, store.heap, acc, rest[0], m.contents, store.keyOf);
    FoldNext(op, lm, acc, rest, m.contents, val0, store.val, heap0, store.heap, store.keyOf);
  }

  lemma JoinableHead<T>(lm: bool, acc: map<nat, Entry>, rest: seq<map<nat, Entry>>, val: map<nat, T>, heap: set<nat>, keyOf: map<nat, nat>)
    requires rest != [] && Joinable(lm, acc, rest, val, heap, keyOf)
    ensures Mergeable(lm, acc, rest[0], val, heap, keyOf) && Owns(acc, val, heap, keyOf) && Owns(rest[0], val, heap, keyOf)
  {
  }

  lemma FoldNext<T>(op: (nat, T, T) -> T, lm: bool, acc: map<nat, Entry>, rest: seq<map<nat, Entry>>, a: map<nat, Entry>,
                    val0: map<nat, T>, val: map<nat, T>, heap0: set<nat>, heap: set<nat>, keyOf: map<nat, nat>)
    requires rest != [] && Joinable(lm, acc, rest, val0, heap0, keyOf) && LeftObjects(lm, acc, rest[0], a)
    requires OthersKept(val0, val, a, keyOf) && Owns(a, val, heap, keyOf)
    requires Kept(heap0, heap, acc, rest[0], a, keyOf)
    requires Meaning(a, val) == CombineInto(op, Initial(lm, rest[0], val0), Meaning(acc, val0), Meaning(rest[0], val0))
    ensures Joinable(lm, a, rest[1..], val, heap, keyOf)
    ensures FoldMaps(op, lm, Meaning(a, val), rest[1..], val) == FoldMaps(op, lm, Meaning(acc, val0), rest, val0)
  {
    JoinStep(lm, acc, rest, a, val0, val, heap0, heap, keyOf);
    OwnedMeaning(a, val, heap, keyOf);
    forall n | 1 <= n < |rest| ensures Meaning(rest[n], val).Keys == rest[n].Keys {
      assert Owns(rest[1..][n - 1], val, heap, keyOf);
      OwnedMeaning(rest[n], val, heap, keyOf);
    }
    FoldSame(op, lm, Meaning(a, val), rest[1..], val0, val);
  }

  // ---------------------------------------------------------------- looking a reducer up

  /** The strand's view of a reducer: created on first use, from the identity, or at the leftmost
      map from the reducer's own leftmost view.  `mem` is what the allocator returns. */
  method HyperLookup<T>(h: RedMap, store: Views<T>, key: nat, hb: nat, mem: nat, identity: T) returns (view: nat)
    requires h.Valid() && key != 0 && Owns(h.contents, store.val, store.heap, store.keyOf)
    requires key !in h.contents ==> key !in store.heap
    requires key !in h.contents && h.isLeftmost ==> key in store.val && key in store.keyOf && store.keyOf[key] == key
    requires key !in h.contents && !h.isLeftmost ==>
      mem !in store.val && mem !in store.heap && mem != 0 && mem != key && mem !in h.contents
    modifies h`nbuckets, h`buckets, h`nelem, h`contents, h`logSize, store
    ensures h.Valid() && Owns(h.contents, store.val, store.heap, store.keyOf) && h.isLeftmost == old(h.isLeftmost)
    ensures key in h.contents && view == h.contents[key].view && h.contents.Keys == old(h.contents.Keys) + {key}
    ensures forall k :: k in old(h.contents) ==> h.contents[k] == old(h.contents)[k]
    ensures key !in old(h.contents) ==> h.contents[key].hb == hb
    ensures key !in old(h.contents) && h.isLeftmost ==> view == key && store.val == old(store.val) && store.heap == old(store.heap)
    ensures key !in old(h.contents) && !h.isLeftmost ==>
      view == mem && store.val == old(store.val)[mem := identity] && store.heap == old(store.heap) + {mem}
    ensures key in old(h.contents) ==> h.contents == old(h.contents) && store.val == old(store.val) && store.heap == old(store.heap)
  {
    hide RedMap.Valid, Used, Owns;
    var found, i, j := h.Lookup(key);
    if found {
      return h.buckets[i][j].view;
    }
    OwnsNonNull(h.contents, store.val, store.heap, store.keyOf);
    if h.isLeftmost {
      view := key;
      OwnsLeftmost(h.contents, store.val, store.heap, store.keyOf, key, hb);
    } else {
      OwnsAllocated(h.contents, store.val, store.heap, store.keyOf, key, hb, mem, identity);
      store.Allocate(mem, key, identity);
      view := mem;
    }
    h.RehashAndInsert(key, hb, view);
  }

  lemma OwnsNonNull<T>(contents: map<nat, Entry>, val: map<nat, T>, heap: set<nat>, keyOf: map<nat, nat>)
    requires Owns(contents, val, heap, keyOf)
    ensures NonNull(contents)
  {
  }

  lemma OwnsLeftmost<T>(contents: map<nat, Entry>, val: map<nat, T>, heap: set<nat>, keyOf: map<nat, nat>, key: nat, hb: nat)
    requires Owns(contents, val, heap, keyOf) && key != 0 && key !in heap && key in val && key in keyOf && keyOf[key] == key
    ensures Owns(contents[key := Entry(hb, key)], val, heap, keyOf)
  {
  }

  lemma OwnsAllocated<T>(contents: map<nat, Entry>, val: map<nat, T>, heap: set<nat>, keyOf: map<nat, nat>, key: nat, hb: nat, mem: nat, identity: T)
    requires Owns(contents, val, heap, keyOf) && key !in heap && mem !in val && mem != 0 && mem != key && mem !in contents
    ensures Owns(contents[key := Entry(hb, mem)], val[mem := identity], heap + {mem}, keyOf[mem := key])
  {
  }
}
