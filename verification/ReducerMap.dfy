/**
 The reducer map: a hash table from the address of a reducer's leftmost view to the view a
 strand uses.  A bucket is an array of elements ended by one whose key is zero; the table
 doubles before it gets too full.  `contents` is the finite map the table stands for.
*/
module ReducerMap {
  import opened Arithmetic
  import FrameMalloc

  // ---------------------------------------------------------------- machine arithmetic

  function Xor(a: nat, b: nat): nat {
    if a == 0 then b else if b == 0 then a else 2 * Xor(a / 2, b / 2) + (a % 2 + b % 2) % 2
  }

  function And(a: nat, b: nat): nat {
    if a == 0 || b == 0 then 0 else 2 * And(a / 2, b / 2) + if a % 2 == 1 && b % 2 == 1 then 1 else 0
  }

  /** The test the source uses. */
  predicate IsPowerOf2(n: nat)
    requires n > 0
  {
    And(n, n - 1) == 0
  }

  /** It is true of the powers of two and of nothing else. */
  lemma {:induction false} PowerOf2Exact(n: nat)
    requires n > 0
    ensures IsPowerOf2(n) <==> exists p: nat :: n == Pow2(p)
    decreases n
  {
    if n == 1 {
      assert n == Pow2(0);
    } else if n % 2 == 0 {
      PowerOf2Exact(n / 2);
      assert (n - 1) / 2 == n / 2 - 1;
      assert IsPowerOf2(n) == IsPowerOf2(n / 2);
      if IsPowerOf2(n / 2) {
        var p: nat :| n / 2 == Pow2(p);
        assert n == Pow2(p + 1);
      } else {
        forall p: nat ensures n != Pow2(p) {
          assert p > 0 ==> n / 2 != Pow2(p - 1);
        }
      }
    } else {
      assert (n - 1) / 2 == n / 2;
      AndSelf(n / 2);
      forall p: nat ensures n != Pow2(p) {}
    }
  }

  lemma {:induction false} AndSelf(n: nat)
    ensures And(n, n) == n
  {
    if n > 0 {
      AndSelf(n / 2);
    }
  }

  lemma ModTwice(k: nat, m: nat)
    requires m > 0
    ensures k % (2 * m) == 2 * ((k / 2) % m) + k % 2
  {
    var q, r := (k / 2) / m, (k / 2) % m;
    assert k / 2 == q * m + r;
    assert k == q * (2 * m) + (2 * r + k % 2);
    ModUnique(q, 2 * r + k % 2, 2 * m);
  }

  /** Masking with a power of two less one is taking the remainder. */
  lemma {:induction false} MaskIsRemainder(k: nat, p: nat)
    ensures And(k, Pow2(p) - 1) == k % Pow2(p)
    decreases p
  {
    if p > 0 {
      var m := Pow2(p - 1);
      MaskIsRemainder(k / 2, p - 1);
      assert Pow2(p) == 2 * m;
      AndOdd(k, m - 1);
      ModTwice(k, m);
      hide And, Pow2;
    }
  }

  lemma AndOdd(k: nat, m: nat)
    ensures And(k, 2 * m + 1) == 2 * And(k / 2, m) + k % 2
  {
    assert (2 * m + 1) / 2 == m && (2 * m + 1) % 2 == 1;
  }

  function Mix(key: nat): nat {
    var k1 := Xor(key, key / 0x20_0000);
    var k2 := Xor(k1, k1 / 0x100);
    Xor(k2, k2 / 8)
  }

  function HashFun(nbuckets: nat, key: nat): nat
    requires nbuckets > 0
  {
    And(Mix(key), nbuckets - 1)
  }

  lemma HashInRange(p: nat, key: nat)
    ensures HashFun(Pow2(p), key) < Pow2(p)
  {
    MaskIsRemainder(Mix(key), p);
  }

  // ---------------------------------------------------------------- bucket sizes

  function SizeofBucket(nmax: nat): nat {
    32 + nmax * 24
  }

  /** A block size of the frame allocator that holds `size` bytes; larger sizes are left alone. */
  function FrameMallocRoundup(size: nat): nat {
    if size > FrameMalloc.MAX_SIZE then size else FrameMalloc.BucketSize(FrameMalloc.BucketOf(size))
  }

  function Roundup(nmax: nat): nat {
    (FrameMallocRoundup(SizeofBucket(nmax)) - 32) / 24
  }

  /** A grown bucket has room for one more element than before, and it and its sentinel fit in the
      block that is allocated for it. */
  lemma RoundupHasRoom(nmax: nat)
    ensures Roundup(2 * nmax) > nmax && Roundup(nmax) >= nmax
    ensures SizeofBucket(Roundup(nmax)) <= FrameMallocRoundup(SizeofBucket(nmax))
    ensures FrameMallocRoundup(SizeofBucket(Roundup(nmax))) == FrameMallocRoundup(SizeofBucket(nmax))
  {
  }

  function MinSz(nelem: nat): nat {
    1 + nelem + nelem / 8
  }

  function NextSz(n: nat): nat {
    2 * n
  }

  // ---------------------------------------------------------------- buckets

  datatype Elem = Elem(key: nat, hb: nat, view: nat)

  /** What the table records for a key. */
  datatype Entry = Entry(hb: nat, view: nat)

  const NO_ELEM := Elem(0, 0, 0)

  /** Length of the prefix of elements in use. */
  function Used(b: seq<Elem>): (n: nat)
    ensures n <= |b| && (forall j :: 0 <= j < n ==> b[j].key != 0) && (n < |b| ==> b[n].key == 0)
  {
    if b == [] || b[0].key == 0 then 0 else 1 + Used(b[1..])
  }

  lemma {:induction false} UsedIs(b: seq<Elem>, n: nat)
    requires n <= |b| && (forall j :: 0 <= j < n ==> b[j].key != 0) && (n < |b| ==> b[n].key == 0)
    ensures Used(b) == n
  {
  }

  /** NULL, or elements in use followed by at least one with key zero, and by no others. */
  ghost predicate Terminated(b: seq<Elem>) {
    b == [] || (Used(b) < |b| && forall j :: Used(b) <= j < |b| ==> b[j].key == 0)
  }

  /** The element at `j` removed, those after it moved down over it. */
  ghost predicate ShiftedFrom(b: seq<Elem>, j: nat, c: seq<Elem>)
    requires j < Used(b) < |b|
  {
    && |c| == |b|
    && (forall l :: 0 <= l < j ==> c[l] == b[l])
    && (forall l :: j <= l < Used(b) ==> c[l] == b[l + 1])
    && (forall l :: Used(b) <= l < |b| ==> c[l] == b[l])
  }

  /** A bucket with an element for one more key: the same one, or a larger copy of it. */
  method Grow(b: seq<Elem>) returns (nb: seq<Elem>, j: nat)
    requires Terminated(b)
    ensures Terminated(nb) && Used(nb) == Used(b) == j && j + 1 < |nb|
    ensures forall l :: 0 <= l < j ==> nb[l] == b[l]
  {
    var nmax := 0;
    if b != [] {
      nmax := |b| - 1;
      var i := 0;
      while i < nmax
        invariant 0 <= i <= nmax && i <= Used(b)
      {
        if b[i].key == 0 {
          return b, i;
        }
        i := i + 1;
      }
    }
    var nnmax := Roundup(2 * nmax);
    RoundupHasRoom(nmax);
    var a := new Elem[nnmax + 1](_ => NO_ELEM);
    var i := 0;
    while i < nmax
      invariant 0 <= i <= nmax
      invariant forall l :: 0 <= l < i ==> a[l] == b[l]
    {
      a[i] := b[i];
      i := i + 1;
    }
    while i < nnmax
      invariant nmax <= i <= nnmax
      invariant forall l :: 0 <= l < nmax ==> a[l] == b[l]
      invariant forall l :: nmax <= l < i ==> a[l].key == 0
    {
      a[i] := NO_ELEM;
      i := i + 1;
    }
    a[i] := NO_ELEM;
    UsedIs(a[..], nmax);
    nb, j := a[..], nmax;
  }

  /** Move the elements after `j` down by one, up to and including the sentinel. */
  method ShiftLeft(b: seq<Elem>, j: nat) returns (c: seq<Elem>)
    requires Terminated(b) && j < Used(b)
    ensures ShiftedFrom(b, j, c) && Terminated(c) && Used(c) == Used(b) - 1
  {
    c := b[j := b[j + 1]];
    var el := j + 1;
    while c[el].key != 0
      invariant j < el <= Used(b) && |c| == |b|
      invariant forall l :: 0 <= l < j ==> c[l] == b[l]
      invariant forall l :: j <= l < el ==> c[l] == b[l + 1]
      invariant forall l :: el <= l < |b| ==> c[l] == b[l]
      decreases |b| - el
    {
      c := c[el := c[el + 1]];
      el := el + 1;
    }
    UsedIs(c, Used(b) - 1);
  }

  // ---------------------------------------------------------------- the table

  /** The slot of bucket `i`, element `j` comes before slot (`m`, `n`) in a traversal. */
  predicate Before(i: int, j: int, m: int, n: int) {
    i < m || (i == m && j < n)
  }

  /** Bucket `i` holds entries of `contents` whose hash is `i`, each key once. */
  ghost predicate BucketSound(b: seq<Elem>, i: nat, nbuckets: nat, contents: map<nat, Entry>)
    requires nbuckets > 0
  {
    && Terminated(b)
    && (forall j :: 0 <= j < Used(b) ==>
          && b[j].key in contents && contents[b[j].key] == Entry(b[j].hb, b[j].view)
          && HashFun(nbuckets, b[j].key) == i)
    && (forall j, l :: 0 <= j < l < Used(b) ==> b[j].key != b[l].key)
  }

  ghost predicate HasKey(b: seq<Elem>, key: nat) {
    exists j :: 0 <= j < Used(b) && b[j].key == key
  }

  /** The buckets stand for `contents`: nothing more, nothing less, nothing twice. */
  ghost predicate Represents(buckets: seq<seq<Elem>>, contents: map<nat, Entry>) {
    && |buckets| > 0
    && (forall i :: 0 <= i < |buckets| ==> BucketSound(buckets[i], i, |buckets|, contents))
    && (forall k :: k in contents ==>
          k != 0 && HashFun(|buckets|, k) < |buckets| && HasKey(buckets[HashFun(|buckets|, k)], k))
  }

  /** `m` differs from `contents` only for keys that hash to `i`. */
  ghost predicate SameElsewhere(nbuckets: nat, i: nat, contents: map<nat, Entry>, m: map<nat, Entry>)
    requires nbuckets > 0
  {
    forall k :: HashFun(nbuckets, k) != i ==> (k in m <==> k in contents) && (k in m ==> m[k] == contents[k])
  }

  lemma SoundElsewhere(b: seq<Elem>, l: nat, i: nat, nbuckets: nat, contents: map<nat, Entry>, m: map<nat, Entry>)
    requires nbuckets > 0 && BucketSound(b, l, nbuckets, contents) && l != i && SameElsewhere(nbuckets, i, contents, m)
    ensures BucketSound(b, l, nbuckets, m)
  {
    hide HashFun, Used, Terminated;
  }

  /** One bucket is replaced, and the map changes only for keys of that bucket. */
  lemma ReplaceBucket(buckets: seq<seq<Elem>>, contents: map<nat, Entry>, i: nat, c: seq<Elem>, m: map<nat, Entry>)
    requires Represents(buckets, contents) && i < |buckets| && SameElsewhere(|buckets|, i, contents, m)
    requires BucketSound(c, i, |buckets|, m)
    requires forall k :: k in m && HashFun(|buckets|, k) == i ==> k != 0 && HasKey(c, k)
    ensures Represents(buckets[i := c], m)
  {
    hide HashFun, HasKey, BucketSound;
    var bs := buckets[i := c];
    forall l | 0 <= l < |bs| ensures BucketSound(bs[l], l, |bs|, m) {
      if l != i {
        assert BucketSound(buckets[l], l, |buckets|, contents);
        SoundElsewhere(buckets[l], l, i, |buckets|, contents, m);
      }
    }
  }

  /** A new key at the end of its bucket. */
  lemma InsertRepresents(buckets: seq<seq<Elem>>, contents: map<nat, Entry>, i: nat, c: seq<Elem>, j: nat, entry: Entry)
    requires Represents(buckets, contents) && i < |buckets| && j == Used(buckets[i])
    requires Terminated(c) && Used(c) == j + 1 && forall l :: 0 <= l < j ==> c[l] == buckets[i][l]
    requires c[j].key !in contents && c[j].key != 0 && entry == Entry(c[j].hb, c[j].view) && HashFun(|buckets|, c[j].key) == i
    ensures Represents(buckets[i := c], contents[c[j].key := entry])
  {
    var m := contents[c[j].key := entry];
    InsertSound(buckets[i], i, |buckets|, contents, c, j, entry) by { assert BucketSound(buckets[i], i, |buckets|, contents); }
    hide BucketSound, Terminated;
    forall k | k in m && HashFun(|buckets|, k) == i ensures k != 0 && HasKey(c, k) {
      InsertKeepsKeys(buckets[i], c, j, k);
    }
    hide HashFun, Used, Represents, HasKey;
    ReplaceBucket(buckets, contents, i, c, m);
  }

  lemma InsertSound(b: seq<Elem>, i: nat, nbuckets: nat, contents: map<nat, Entry>, c: seq<Elem>, j: nat, entry: Entry)
    requires nbuckets > 0 && BucketSound(b, i, nbuckets, contents) && j == Used(b)
    requires Terminated(c) && Used(c) == j + 1 && forall l :: 0 <= l < j ==> c[l] == b[l]
    requires c[j].key !in contents && entry == Entry(c[j].hb, c[j].view) && HashFun(nbuckets, c[j].key) == i
    ensures BucketSound(c, i, nbuckets, contents[c[j].key := entry])
  {
    hide HashFun, Used, Terminated;
  }

  lemma InsertKeepsKeys(b: seq<Elem>, c: seq<Elem>, j: nat, k: nat)
    requires j == Used(b) && Used(c) == j + 1 && forall l :: 0 <= l < j ==> c[l] == b[l]
    ensures HasKey(c, c[j].key)
    ensures HasKey(b, k) ==> HasKey(c, k)
  {
    hide Used;
    assert c[j].key == c[j].key;
    if HasKey(b, k) {
      var l :| 0 <= l < Used(b) && b[l].key == k;
      assert c[l].key == k;
    }
  }

  /** `cur` holds the entries of the slots before (`i`, `j`), and only those. */
  ghost predicate Copied(buckets: seq<seq<Elem>>, all: map<nat, Entry>, cur: map<nat, Entry>, i: int, j: int) {
    && Represents(buckets, all)
    && (forall k :: k in cur ==> k in all && cur[k] == all[k])
    && (forall m, n :: 0 <= m < |buckets| && 0 <= n < Used(buckets[m]) ==> (buckets[m][n].key in cur <==> Before(m, n, i, j)))
  }

  lemma CopiedSmaller(buckets: seq<seq<Elem>>, all: map<nat, Entry>, cur: map<nat, Entry>, i: int, j: int)
    requires Copied(buckets, all, cur, i, j) && 0 <= i < |buckets| && 0 <= j < Used(buckets[i])
    ensures var key := buckets[i][j].key; key !in cur && key in all && key != 0 && all[key] == Entry(buckets[i][j].hb, buckets[i][j].view)
    ensures |cur| < |all|
  {
    var key := buckets[i][j].key;
    assert BucketSound(buckets[i], i, |buckets|, all);
    assert cur.Keys <= all.Keys - {key};
    Subset(cur.Keys, all.Keys - {key});
    assert |all.Keys - {key}| == |all.Keys| - 1;
    assert |all| == |all.Keys| && |cur| == |cur.Keys|;
  }

  lemma {:induction false} Subset<T>(a: set<T>, b: set<T>)
    requires a <= b
    ensures |a| <= |b|
  {
    if a != {} {
      var x :| x in a;
      Subset(a - {x}, b - {x});
    }
  }

  /** Slots hold distinct keys. */
  lemma SlotsDistinct(buckets: seq<seq<Elem>>, all: map<nat, Entry>, i: int, j: int, m: int, n: int)
    requires Represents(buckets, all)
    requires 0 <= i < |buckets| && 0 <= j < Used(buckets[i]) && 0 <= m < |buckets| && 0 <= n < Used(buckets[m])
    requires buckets[i][j].key == buckets[m][n].key
    ensures i == m && j == n
  {
    assert BucketSound(buckets[i], i, |buckets|, all) && BucketSound(buckets[m], m, |buckets|, all);
  }

  lemma CopiedOne(buckets: seq<seq<Elem>>, all: map<nat, Entry>, before: map<nat, Entry>, cur: map<nat, Entry>, i: int, j: int)
    requires Copied(buckets, all, before, i, j) && 0 <= i < |buckets| && 0 <= j < Used(buckets[i])
    requires cur == before[buckets[i][j].key := Entry(buckets[i][j].hb, buckets[i][j].view)]
    ensures Copied(buckets, all, cur, i, j + 1)
  {
    hide Represents, Used;
    CopiedSmaller(buckets, all, before, i, j);
    forall m, n | 0 <= m < |buckets| && 0 <= n < Used(buckets[m])
      ensures buckets[m][n].key in cur <==> Before(m, n, i, j + 1)
    {
      if buckets[m][n].key == buckets[i][j].key { SlotsDistinct(buckets, all, i, j, m, n); }
    }
  }

  lemma CopiedBucket(buckets: seq<seq<Elem>>, all: map<nat, Entry>, cur: map<nat, Entry>, i: int, j: int)
    requires Copied(buckets, all, cur, i, j) && 0 <= i < |buckets| && j == Used(buckets[i])
    ensures Copied(buckets, all, cur, i + 1, 0)
  {
  }

  lemma CopiedAll(buckets: seq<seq<Elem>>, all: map<nat, Entry>, cur: map<nat, Entry>, i: int)
    requires Copied(buckets, all, cur, i, 0) && i == |buckets|
    ensures cur == all
  {
    forall k | k in all ensures k in cur {
      var b := buckets[HashFun(|buckets|, k)];
      assert HasKey(b, k);
      var l :| 0 <= l < Used(b) && b[l].key == k;
      assert buckets[HashFun(|buckets|, k)][l].key == k;
    }
  }

  lemma SlotFacts(buckets: seq<seq<Elem>>, contents: map<nat, Entry>, i: nat, j: nat)
    requires Represents(buckets, contents) && i < |buckets| && j < Used(buckets[i])
    ensures Terminated(buckets[i]) && Used(buckets[i]) < |buckets[i]|
    ensures var e := buckets[i][j]; e.key in contents && contents[e.key] == Entry(e.hb, e.view)
  {
    assert BucketSound(buckets[i], i, |buckets|, contents);
  }

  lemma RepresentsTerminated(buckets: seq<seq<Elem>>, all: map<nat, Entry>, cur: map<nat, Entry>, i: nat)
    requires Copied(buckets, all, cur, i, 0) && i < |buckets|
    ensures buckets[i] != [] ==> Used(buckets[i]) < |buckets[i]|
    ensures buckets[i] == [] ==> Used(buckets[i]) == 0
  {
    assert BucketSound(buckets[i], i, |buckets|, all);
  }

  lemma CopiedNone(buckets: seq<seq<Elem>>, all: map<nat, Entry>)
    requires Represents(buckets, all)
    ensures Copied(buckets, all, map[], 0, 0)
  {
  }

  lemma SetViewRepresents(buckets: seq<seq<Elem>>, contents: map<nat, Entry>, i: nat, j: nat, view: nat)
    requires Represents(buckets, contents) && i < |buckets| && j < Used(buckets[i])
    ensures var e := buckets[i][j]; var c := buckets[i][j := e.(view := view)];
      && e.key in contents && Used(c) == Used(buckets[i])
      && Represents(buckets[i := c], contents[e.key := Entry(e.hb, view)])
      && (contents[e.key := Entry(e.hb, view)]).Keys == contents.Keys
  {
    var e := buckets[i][j];
    var c := buckets[i][j := e.(view := view)];
    var m := contents[e.key := Entry(e.hb, view)];
    SetViewSound(buckets[i], i, |buckets|, contents, j, view) by { assert BucketSound(buckets[i], i, |buckets|, contents); }
    hide BucketSound;
    forall k | k in m && HashFun(|buckets|, k) == i ensures k != 0 && HasKey(c, k) {
      assert HasKey(buckets[i], k);
      SetViewKeepsKeys(buckets[i], j, view, k);
    }
    hide HashFun, Used, Represents, HasKey;
    ReplaceBucket(buckets, contents, i, c, m);
  }

  lemma SetViewSound(b: seq<Elem>, i: nat, nbuckets: nat, contents: map<nat, Entry>, j: nat, view: nat)
    requires nbuckets > 0 && BucketSound(b, i, nbuckets, contents) && j < Used(b)
    ensures var c := b[j := b[j].(view := view)];
      && Used(c) == Used(b) && b[j].key in contents
      && BucketSound(c, i, nbuckets, contents[b[j].key := Entry(b[j].hb, view)])
  {
    UsedIs(b[j := b[j].(view := view)], Used(b));
    hide HashFun, Used;
  }

  lemma SetViewKeepsKeys(b: seq<Elem>, j: nat, view: nat, k: nat)
    requires j < Used(b) && HasKey(b, k) && Used(b[j := b[j].(view := view)]) == Used(b)
    ensures HasKey(b[j := b[j].(view := view)], k)
  {
    hide Used;
    var l :| 0 <= l < Used(b) && b[l].key == k;
    assert b[j := b[j].(view := view)][l].key == k;
  }

  lemma RemoveRepresents(buckets: seq<seq<Elem>>, contents: map<nat, Entry>, i: nat, j: nat, c: seq<Elem>)
    requires Represents(buckets, contents) && i < |buckets| && j < Used(buckets[i]) < |buckets[i]|
    requires ShiftedFrom(buckets[i], j, c) && Terminated(c) && Used(c) == Used(buckets[i]) - 1
    ensures buckets[i][j].key in contents
    ensures Represents(buckets[i := c], contents - {buckets[i][j].key})
  {
    hide HashFun, HasKey, Used, BucketSound, Represents, Terminated, ShiftedFrom, SameElsewhere;
    var key := buckets[i][j].key;
    RemovedKey(buckets, contents, i, j);
    RemovedKeys(buckets, contents, i, j, c);
    RemoveSound(buckets[i], i, |buckets|, contents, j, c);
    ReplaceBucket(buckets, contents, i, c, contents - {key});
  }

  lemma RemovedKey(buckets: seq<seq<Elem>>, contents: map<nat, Entry>, i: nat, j: nat)
    requires Represents(buckets, contents) && i < |buckets| && j < Used(buckets[i])
    ensures var key := buckets[i][j].key;
      && key in contents && BucketSound(buckets[i], i, |buckets|, contents) && SameElsewhere(|buckets|, i, contents, contents - {key})
  {
    hide HashFun, HasKey, Used, Terminated;
    assert BucketSound(buckets[i], i, |buckets|, contents);
  }

  lemma RemovedKeys(buckets: seq<seq<Elem>>, contents: map<nat, Entry>, i: nat, j: nat, c: seq<Elem>)
    requires Represents(buckets, contents) && i < |buckets| && j < Used(buckets[i]) < |buckets[i]|
    requires ShiftedFrom(buckets[i], j, c) && Used(c) == Used(buckets[i]) - 1
    ensures forall k :: k in contents - {buckets[i][j].key} && HashFun(|buckets|, k) == i ==> k != 0 && HasKey(c, k)
  {
    forall k | k in contents - {buckets[i][j].key} && HashFun(|buckets|, k) == i ensures k != 0 && HasKey(c, k) {
      assert HasKey(buckets[i], k);
      hide HashFun, Represents, Used, ShiftedFrom, HasKey;
      RemoveKeepsKeys(buckets[i], j, c, k);
    }
  }

  lemma RemoveKeepsKeys(b: seq<Elem>, j: nat, c: seq<Elem>, k: nat)
    requires j < Used(b) < |b| && ShiftedFrom(b, j, c) && Used(c) == Used(b) - 1 && HasKey(b, k) && k != b[j].key
    ensures HasKey(c, k)
  {
    hide Used;
    var l :| 0 <= l < Used(b) && b[l].key == k;
    assert c[if l > j then l - 1 else l].key == k;
  }

  lemma RemoveSound(b: seq<Elem>, i: nat, nbuckets: nat, contents: map<nat, Entry>, j: nat, c: seq<Elem>)
    requires nbuckets > 0 && BucketSound(b, i, nbuckets, contents) && j < Used(b) < |b|
    requires ShiftedFrom(b, j, c) && Terminated(c) && Used(c) == Used(b) - 1
    ensures BucketSound(c, i, nbuckets, contents - {b[j].key})
  {
    hide HashFun, Used, Terminated;
    forall l | 0 <= l < Used(c) ensures c[l] == b[if l < j then l else l + 1] && c[l].key != b[j].key {
    }
  }

  /** A key is in the table exactly when it is in its bucket, and every slot tells the truth. */
  lemma LookupFacts(buckets: seq<seq<Elem>>, contents: map<nat, Entry>, key: nat)
    requires Represents(buckets, contents) && HashFun(|buckets|, key) < |buckets|
    ensures var b := buckets[HashFun(|buckets|, key)];
      && Terminated(b) && (key in contents <==> HasKey(b, key))
      && forall j :: 0 <= j < Used(b) && b[j].key == key ==> key in contents && contents[key] == Entry(b[j].hb, b[j].view)
  {
    var i := HashFun(|buckets|, key);
    assert BucketSound(buckets[i], i, |buckets|, contents);
    hide HashFun, Used;
  }

  /** Along a bucket until the sentinel. */
  method Scan(b: seq<Elem>, key: nat) returns (found: bool, j: nat)
    requires Terminated(b)
    ensures found <==> HasKey(b, key)
    ensures found ==> j < Used(b) && b[j].key == key
  {
    j := 0;
    if b != [] {
      while b[j].key != 0
        invariant j <= Used(b)
        invariant forall l :: 0 <= l < j ==> b[l].key != key
        decreases |b| - j
      {
        if b[j].key == key {
          return true, j;
        }
        j := j + 1;
      }
      assert j == Used(b);
    }
    found := false;
  }

  ghost predicate NonNull(contents: map<nat, Entry>) {
    forall k :: k in contents ==> contents[k].view != 0
  }

  class RedMap {
    var nelem: nat
    var nbuckets: nat
    var buckets: seq<seq<Elem>>
    var isLeftmost: bool
    ghost var contents: map<nat, Entry>
    ghost var logSize: nat

    ghost predicate Valid()
      reads this
    {
      && nbuckets == |buckets| == Pow2(logSize) && nelem == |contents| && nelem <= nbuckets
      && Represents(buckets, contents)
    }

    constructor MakeReducerMap()
      ensures Valid() && contents == map[] && !isLeftmost && nbuckets == 1
    {
      nelem, nbuckets, buckets, isLeftmost := 0, 1, [[]], false;
      contents, logSize := map[], 0;
      new;
      assert Pow2(0) == 1;
      assert buckets[0] == [] && BucketSound(buckets[0], 0, |buckets|, contents);
    }

    method MakeBuckets(newNbuckets: nat, ghost p: nat)
      requires newNbuckets == Pow2(p)
      modifies this`nbuckets, this`buckets, this`nelem, this`contents, this`logSize
      ensures Valid() && contents == map[] && nbuckets == newNbuckets && logSize == p && IsPowerOf2(nbuckets)
    {
      nbuckets := newNbuckets;
      PowerOf2Exact(nbuckets);
      assert IsPowerOf2(nbuckets);
      var newBuckets := [];
      while |newBuckets| < newNbuckets
        invariant |newBuckets| <= newNbuckets && forall i :: 0 <= i < |newBuckets| ==> newBuckets[i] == []
      {
        newBuckets := newBuckets + [[]];
      }
      buckets := newBuckets;
      nelem := 0;
      contents, logSize := map[], p;
      forall i | 0 <= i < |buckets| ensures BucketSound(buckets[i], i, |buckets|, contents) {
        assert buckets[i] == [];
      }
    }

    /** The slot of `key`, if there is one. */
    method Lookup(key: nat) returns (found: bool, i: nat, j: nat)
      requires Valid() && key != 0
      ensures found <==> key in contents
      ensures found ==> i < |buckets| && j < Used(buckets[i]) && buckets[i][j].key == key
      ensures found ==> contents[key] == Entry(buckets[i][j].hb, buckets[i][j].view)
    {
      HashInRange(logSize, key);
      i := HashFun(nbuckets, key);
      LookupFacts(buckets, contents, key);
      hide Represents, HashFun, Pow2, BucketSound, Used, Terminated;
      found, j := Scan(buckets[i], key);
    }

    method InsertNoRehash(key: nat, hb: nat, view: nat)
      requires Valid() && key != 0 && view != 0 && key !in contents && nelem < nbuckets
      modifies this`buckets, this`nelem, this`contents
      ensures Valid() && contents == old(contents)[key := Entry(hb, view)] && nelem == old(nelem) + 1
    {
      HashInRange(logSize, key);
      var i := HashFun(nbuckets, key);
      assert BucketSound(buckets[i], i, nbuckets, contents);
      hide Represents, HashFun, Pow2;
      var b, j := Grow(buckets[i]);
      var c := b[j := Elem(key, hb, view)];
      ghost var was := buckets;
      UsedIs(c, j + 1);
      buckets := buckets[i := c];
      nelem := nelem + 1;
      InsertRepresents(was, contents, i, c, j, Entry(hb, view));
      contents := contents[key := Entry(hb, view)];
    }

    /** Into twice as many buckets, element by element. */
    method Rehash()
      requires Valid() && NonNull(contents)
      modifies this`nbuckets, this`buckets, this`nelem, this`contents, this`logSize
      ensures Valid() && contents == old(contents) && nelem == old(nelem) && nbuckets == 2 * old(nbuckets)
    {
      hide Represents, HashFun, Copied;
      var onbuckets, onelem, obuckets := nbuckets, nelem, buckets;
      ghost var all := contents;
      MakeBuckets(NextSz(nbuckets), logSize + 1);
      CopiedNone(obuckets, all);
      var i := 0;
      while i < onbuckets
        invariant 0 <= i <= onbuckets && Valid() && nbuckets == 2 * onbuckets
        invariant Copied(obuckets, all, contents, i, 0)
      {
        CopyBucket(obuckets, i, all);
        i := i + 1;
      }
      CopiedAll(obuckets, all, contents, i);
      assert nelem == onelem;
    }

    method CopyBucket(obuckets: seq<seq<Elem>>, i: nat, ghost all: map<nat, Entry>)
      requires Valid() && i < |obuckets| && Copied(obuckets, all, contents, i, 0) && |all| <= nbuckets && NonNull(all)
      modifies this`buckets, this`nelem, this`contents
      ensures Valid() && Copied(obuckets, all, contents, i + 1, 0)
    {
      hide Represents, HashFun, Copied, Terminated;
      var b := obuckets[i];
      RepresentsTerminated(obuckets, all, contents, i);
      if b != [] {
        var j := 0;
        while b[j].key != 0
          invariant 0 <= j <= Used(b) && Valid() && Copied(obuckets, all, contents, i, j)
          decreases |b| - j
        {
          CopiedSmaller(obuckets, all, contents, i, j);
          ghost var before := contents;
          InsertNoRehash(b[j].key, b[j].hb, b[j].view);
          CopiedOne(obuckets, all, before, contents, i, j);
          j := j + 1;
        }
        assert j == Used(b);
        CopiedBucket(obuckets, all, contents, i, j);
      } else {
        CopiedBucket(obuckets, all, contents, i, 0);
      }
    }

    /** The caller has looked: the key is not there. */
    method RehashAndInsert(key: nat, hb: nat, view: nat)
      requires Valid() && NonNull(contents) && key != 0 && view != 0 && key !in contents
      modifies this`nbuckets, this`buckets, this`nelem, this`contents, this`logSize
      ensures Valid() && NonNull(contents) && contents == old(contents)[key := Entry(hb, view)]
      ensures nbuckets == (if old(nelem) + old(nelem) / 8 < old(nbuckets) then old(nbuckets) else 2 * old(nbuckets))
      ensures nelem + (nelem - 1) / 8 <= nbuckets
    {
      hide Represents;
      if MinSz(nelem) > nbuckets {
        Rehash();
      }
      InsertNoRehash(key, hb, view);
    }

    method SetView(i: nat, j: nat, view: nat)
      requires Valid() && i < |buckets| && j < Used(buckets[i])
      modifies this`buckets, this`contents
      ensures Valid() && |buckets| == old(|buckets|) && buckets == old(buckets)[i := old(buckets[i])[j := old(buckets[i][j]).(view := view)]]
      ensures Used(buckets[i]) == old(Used(buckets[i]))
      ensures old(buckets[i][j]).key in old(contents)
      ensures var e := old(buckets[i][j]); contents == old(contents)[e.key := Entry(e.hb, view)]
    {
      hide Represents, Used;
      ghost var was, all := buckets, contents;
      var e := buckets[i][j];
      var c := buckets[i][j := e.(view := view)];
      buckets := buckets[i := c];
      contents := contents[e.key := Entry(e.hb, view)];
      SetViewRepresents(was, all, i, j, view);
    }

    /** Unlink the element of a reducer that goes away; fails unless this is the strand with its
        leftmost view. */
    method HyperDestroy(key: nat) returns (ok: bool)
      requires Valid() && NonNull(contents) && key != 0
      modifies this`buckets, this`nelem, this`contents
      ensures Valid() && NonNull(contents) && ok == (key in old(contents) && old(contents)[key].view == key)
      ensures contents == if ok then old(contents) - {key} else old(contents)
    {
      hide Represents, Used, Terminated;
      var found, i, j := Lookup(key);
      if !found || buckets[i][j].view != key {
        return false;
      }
      ghost var was, all := buckets, contents;
      SlotFacts(buckets, contents, i, j);
      var c := ShiftLeft(buckets[i], j);
      buckets := buckets[i := c];
      nelem := nelem - 1;
      contents := contents - {key};
      RemoveRepresents(was, all, i, j, c);
      assert all.Keys == contents.Keys + {key};
      ok := true;
    }

    /** Register a reducer: its leftmost view is at the address that is its key. */
    method HyperCreate(key: nat, hb: nat)
      requires Valid() && NonNull(contents) && key != 0 && key !in contents
      modifies this`nbuckets, this`buckets, this`nelem, this`contents, this`logSize
      ensures Valid() && NonNull(contents) && contents == old(contents)[key := Entry(hb, key)]
    {
      hide Represents;
      var found, _, _ := Lookup(key);
      assert !found;
      RehashAndInsert(key, hb, key);
    }
  }
}
