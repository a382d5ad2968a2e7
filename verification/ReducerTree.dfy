/**
 All merges of a computation: a binary tree of joins over the strands' reducer maps, any of which
 may be missing and the first of which may be the leftmost one.  Whatever the shape of the tree and
 whichever map survives each merge, every reducer ends with the value of the serial program.
*/
module ReducerTree {
  import opened ReducerMap
  import opened ReducerMerge
  import opened Wrappers

  // ---------------------------------------------------------------- the serial program

  ghost predicate Associative<T(!new)>(op: (nat, T, T) -> T) {
    forall k, a, b, c :: op(k, op(k, a, b), c) == op(k, a, op(k, b, c))
  }

  function Reduced<T>(op: (nat, T, T) -> T, k: nat, x: Option<T>, y: Option<T>): Option<T> {
    if x == None then y else if y == None then x else Some(op(k, x.value, y.value))
  }

  function Use<T>(m: map<nat, T>, k: nat): Option<T> {
    if k in m then Some(m[k]) else None
  }

  /** The serial program: one strand after the other, each reducing into what came before. */
  function Serial<T>(op: (nat, T, T) -> T, k: nat, acc: Option<T>, strands: seq<map<nat, T>>): Option<T>
    decreases |strands|
  {
    if strands == [] then acc else Serial(op, k, Reduced(op, k, acc, Use(strands[0], k)), strands[1..])
  }

  lemma {:induction false} SerialAppend<T>(op: (nat, T, T) -> T, k: nat, acc: Option<T>, a: seq<map<nat, T>>, b: seq<map<nat, T>>)
    ensures Serial(op, k, acc, a + b) == Serial(op, k, Serial(op, k, acc, a), b)
    decreases |a|
  {
    if a == [] {
      assert a + b == b;
    } else {
      assert (a + b)[1..] == a[1..] + b;
      SerialAppend(op, k, Reduced(op, k, acc, Use(a[0], k)), a[1..], b);
    }
  }

  lemma ReducedAssociative<T(!new)>(op: (nat, T, T) -> T, k: nat, x: Option<T>, y: Option<T>, z: Option<T>)
    requires Associative(op)
    ensures Reduced(op, k, Reduced(op, k, x, y), z) == Reduced(op, k, x, Reduced(op, k, y, z))
  {
  }

  lemma {:induction false} SerialFrom<T(!new)>(op: (nat, T, T) -> T, k: nat, acc: Option<T>, a: seq<map<nat, T>>)
    requires Associative(op)
    ensures Serial(op, k, acc, a) == Reduced(op, k, acc, Serial(op, k, None, a))
    decreases |a|
  {
    hide Associative, Reduced;
    if a == [] {
      assert Serial(op, k, acc, a) == acc && Reduced(op, k, acc, None) == acc by { ReducedNone(op, k, acc); }
    } else {
      var u := Use(a[0], k);
      SerialFrom(op, k, Reduced(op, k, acc, u), a[1..]);
      SerialFrom(op, k, Reduced(op, k, None, u), a[1..]);
      ReducedNone(op, k, u);
      ReducedAssociative(op, k, acc, u, Serial(op, k, None, a[1..]));
    }
  }

  lemma ReducedNone<T>(op: (nat, T, T) -> T, k: nat, x: Option<T>)
    ensures Reduced(op, k, x, None) == x && Reduced(op, k, None, x) == x
  {
  }

  /** Strands that do not use a reducer leave it as it is; one that does gives it a value. */
  lemma {:induction false} SerialUnused<T>(op: (nat, T, T) -> T, k: nat, acc: Option<T>, strands: seq<map<nat, T>>)
    ensures (forall j :: 0 <= j < |strands| ==> k !in strands[j]) ==> Serial(op, k, acc, strands) == acc
    ensures acc.Some? || (exists j :: 0 <= j < |strands| && k in strands[j]) ==> Serial(op, k, acc, strands).Some?
    decreases |strands|
  {
    if strands != [] {
      SerialUnused(op, k, Reduced(op, k, acc, Use(strands[0], k)), strands[1..]);
      assert forall j :: 0 <= j < |strands[1..]| ==> strands[1..][j] == strands[j + 1];
      if k !in strands[0] {
        if j :| 0 <= j < |strands| && k in strands[j] { assert k in strands[1..][j - 1]; }
      }
    }
  }

  // ---------------------------------------------------------------- strands and their maps

  /** Some strand used reducer `k`. */
  ghost predicate Touched(cs: seq<map<nat, Entry>>, k: nat) {
    exists j :: 0 <= j < |cs| && k in cs[j]
  }

  /** Strand `j` was the first to. */
  ghost predicate FirstUser(cs: seq<map<nat, Entry>>, k: nat, j: int) {
    0 <= j < |cs| && k in cs[j] && forall i :: 0 <= i < j ==> k !in cs[i]
  }

  lemma {:induction false} HasFirst(cs: seq<map<nat, Entry>>, k: nat) returns (j: int)
    requires Touched(cs, k)
    ensures FirstUser(cs, k, j)
    decreases |cs|
  {
    if k in cs[0] {
      j := 0;
    } else {
      assert forall i :: 0 <= i < |cs[1..]| ==> cs[1..][i] == cs[i + 1];
      var n :| 0 <= n < |cs| && k in cs[n];
      assert k in cs[1..][n - 1];
      j := HasFirst(cs[1..], k);
      j := j + 1;
    }
  }

  ghost predicate HeldByAny(cs: seq<map<nat, Entry>>, keyOf: map<nat, nat>, v: nat) {
    exists j :: 0 <= j < |cs| && Holds(cs[j], keyOf, v)
  }

  /** The strands' maps, in serial order: no shared views, a reducer's leftmost view only with the first
      strand that uses it, and leftmost views where the leftmost map may have to create them. */
  ghost predicate Ready<T>(lm: bool, cs: seq<map<nat, Entry>>, val: map<nat, T>, heap: set<nat>, keyOf: map<nat, nat>) {
    && (forall j :: 0 <= j < |cs| ==> Owns(cs[j], val, heap, keyOf))
    && (forall i, j :: 0 <= i < j < |cs| ==> Follows(cs[i], cs[j]))
    && (lm ==> forall j, k :: 0 <= j < |cs| && k in cs[j] ==> HasLeftmost(val, keyOf, k))
  }

  ghost predicate HasLeftmost<T>(val: map<nat, T>, keyOf: map<nat, nat>, k: nat) {
    k in val && k in keyOf && keyOf[k] == k && k != 0
  }

  ghost function Meanings<T>(cs: seq<map<nat, Entry>>, val: map<nat, T>): (ms: seq<map<nat, T>>)
    ensures |ms| == |cs| && forall j :: 0 <= j < |cs| ==> ms[j] == Meaning(cs[j], val)
  {
    seq(|cs|, j requires 0 <= j < |cs| => Meaning(cs[j], val))
  }

  /** What a reducer starts from: its leftmost view, if the computation has the leftmost map and that has
      no view of it yet, and no strand has the leftmost view itself. */
  ghost function Start<T>(lm: bool, cs: seq<map<nat, Entry>>, val: map<nat, T>, k: nat): Option<T> {
    if lm && cs != [] && k !in cs[0] && k in val && forall j :: 0 <= j < |cs| && k in cs[j] ==> cs[j][k].view != k
    then Some(val[k]) else None
  }

  /** What the serial program gives reducer `k`, if any strand uses it. */
  ghost function SerialUse<T>(op: (nat, T, T) -> T, lm: bool, cs: seq<map<nat, Entry>>, val: map<nat, T>, k: nat): Option<T> {
    if Touched(cs, k) then Serial(op, k, Start(lm, cs, val, k), Meanings(cs, val)) else None
  }

  // ---------------------------------------------------------------- what a tree of joins comes to

  /** The views of the map that is left: those of the strands that used a reducer first, or leftmost ones. */
  ghost predicate ViewsOf(lm: bool, cs: seq<map<nat, Entry>>, c: map<nat, Entry>) {
    && (forall k :: k in c <==> Touched(cs, k))
    && (forall k: nat, j :: FirstUser(cs, k, j) ==> k in c && c[k].view == if lm && j > 0 then k else cs[j][k].view)
  }

  /** Views that belong to none of the strands, and not to the result either, have the values they had. */
  ghost predicate ValuesKept<T>(cs: seq<map<nat, Entry>>, c: map<nat, Entry>, val0: map<nat, T>, val: map<nat, T>, keyOf: map<nat, nat>) {
    val.Keys == val0.Keys && forall v :: v in val0 && !HeldByAny(cs, keyOf, v) && !Holds(c, keyOf, v) ==> val[v] == val0[v]
  }

  /** Exactly the strands' allocated views that the result does not have are destroyed. */
  ghost predicate HeapKept(cs: seq<map<nat, Entry>>, c: map<nat, Entry>, heap0: set<nat>, heap: set<nat>, keyOf: map<nat, nat>) {
    forall v :: v in heap <==> v in heap0 && (HeldByAny(cs, keyOf, v) ==> Holds(c, keyOf, v))
  }

  /** Every reducer has the value of the serial program. */
  ghost predicate SerialMeaning<T>(op: (nat, T, T) -> T, lm: bool, cs: seq<map<nat, Entry>>, c: map<nat, Entry>, val0: map<nat, T>, val: map<nat, T>) {
    forall k :: Use(Meaning(c, val), k) == SerialUse(op, lm, cs, val0, k)
  }

  ghost predicate Joined<T>(op: (nat, T, T) -> T, lm: bool, cs: seq<map<nat, Entry>>, c: map<nat, Entry>,
                            val0: map<nat, T>, val: map<nat, T>, heap0: set<nat>, heap: set<nat>, keyOf: map<nat, nat>) {
    && ViewsOf(lm, cs, c) && ValuesKept(cs, c, val0, val, keyOf) && HeapKept(cs, c, heap0, heap, keyOf)
    && SerialMeaning(op, lm, cs, c, val0, val) && Owns(c, val, heap, keyOf) && BasesOf(cs, c)
  }

  lemma LeafJoined<T>(op: (nat, T, T) -> T, lm: bool, c: map<nat, Entry>, val: map<nat, T>, heap: set<nat>, keyOf: map<nat, nat>)
    requires Owns(c, val, heap, keyOf)
    ensures Joined(op, lm, [c], c, val, val, heap, heap, keyOf)
  {
    var cs := [c];
    assert cs[0] == c;
    LeafBases(c);
    LeafHeld(c, keyOf);
    forall k ensures Use(Meaning(c, val), k) == SerialUse(op, lm, cs, val, k) {
      LeafSerial(op, lm, c, val, heap, keyOf, k);
    }
  }

  lemma LeafHeld(c: map<nat, Entry>, keyOf: map<nat, nat>)
    ensures forall v :: HeldByAny([c], keyOf, v) <==> Holds(c, keyOf, v)
    ensures forall k :: Touched([c], k) <==> k in c
  {
    assert [c][0] == c;
  }

  lemma LeafSerial<T>(op: (nat, T, T) -> T, lm: bool, c: map<nat, Entry>, val: map<nat, T>, heap: set<nat>, keyOf: map<nat, nat>, k: nat)
    requires Owns(c, val, heap, keyOf)
    ensures Use(Meaning(c, val), k) == SerialUse(op, lm, [c], val, k)
  {
    LeafHeld(c, keyOf);
    OwnedMeaning(c, val, heap, keyOf);
    if k in c {
      var m := Meaning(c, val);
      var ms := [m];
      assert [c][0] == c && Meanings([c], val) == ms && |ms[1..]| == 0 && ms[0] == m;
      assert Start(lm, [c], val, k) == None;
      assert Serial(op, k, None, ms) == Serial(op, k, Use(m, k), ms[1..]);
    }
  }

  // ---------------------------------------------------------------- siblings do not disturb each other

  /** A later strand's map, while the joins of earlier strands go on. */
  lemma LaterStill<T>(lm: bool, a: seq<map<nat, Entry>>, c: map<nat, Entry>, later: map<nat, Entry>,
                      val0: map<nat, T>, val: map<nat, T>, heap0: set<nat>, heap: set<nat>, keyOf: map<nat, nat>)
    requires ViewsOf(lm, a, c) && ValuesKept(a, c, val0, val, keyOf) && HeapKept(a, c, heap0, heap, keyOf)
    requires Owns(later, val0, heap0, keyOf) && forall i :: 0 <= i < |a| ==> Follows(a[i], later)
    ensures Follows(c, later) && Owns(later, val, heap, keyOf) && Meaning(later, val) == Meaning(later, val0)
  {
    forall k | k in later
      ensures var v := later[k].view; !HeldByAny(a, keyOf, v) && (k in c ==> c[k].view != v && v != k)
    {
      var v := later[k].view;
      assert keyOf[v] == k;
      if k in c {
        var j := HasFirst(a, k);
        assert Follows(a[j], later);
      }
      forall i | 0 <= i < |a| ensures !Holds(a[i], keyOf, v) { assert Follows(a[i], later); }
    }
    hide ViewsOf, HeldByAny;
  }

  /** The earlier strands' result, while the joins of later strands go on. */
  lemma EarlierStill<T>(b: seq<map<nat, Entry>>, c: map<nat, Entry>, d: map<nat, Entry>,
                        val0: map<nat, T>, val: map<nat, T>, heap0: set<nat>, heap: set<nat>, keyOf: map<nat, nat>)
    requires ViewsOf(false, b, d) && ValuesKept(b, d, val0, val, keyOf) && HeapKept(b, d, heap0, heap, keyOf)
    requires Owns(c, val0, heap0, keyOf) && forall j :: 0 <= j < |b| ==> Follows(c, b[j])
    ensures Owns(c, val, heap, keyOf) && Meaning(c, val) == Meaning(c, val0)
    ensures forall k :: k in c && k in d ==> c[k].view != d[k].view
  {
    forall k | k in c
      ensures var v := c[k].view; !HeldByAny(b, keyOf, v) && !Holds(d, keyOf, v) && (k in d ==> d[k].view != v)
    {
      var v := c[k].view;
      assert keyOf[v] == k;
      if k in d {
        var j := HasFirst(b, k);
        assert Follows(c, b[j]);
      }
      forall j | 0 <= j < |b| ensures !Holds(b[j], keyOf, v) { assert Follows(c, b[j]); }
    }
    hide ViewsOf, HeldByAny;
  }

  // ---------------------------------------------------------------- one more join

  lemma UserOfBoth(a: seq<map<nat, Entry>>, b: seq<map<nat, Entry>>, k: nat)
    ensures Touched(a + b, k) <==> Touched(a, k) || Touched(b, k)
    ensures forall j :: FirstUser(a + b, k, j) ==> if j < |a| then FirstUser(a, k, j) else !Touched(a, k) && FirstUser(b, k, j - |a|)
  {
    var ab := a + b;
    assert forall i :: 0 <= i < |a| ==> ab[i] == a[i];
    assert forall i :: 0 <= i < |b| ==> ab[|a| + i] == b[i];
    forall j | FirstUser(ab, k, j) && j >= |a| ensures !Touched(a, k) && FirstUser(b, k, j - |a|) {
      assert forall i :: 0 <= i < |a| ==> k !in ab[i];
      forall i | 0 <= i < j - |a| ensures k !in b[i] { assert ab[|a| + i] == b[i]; }
    }
  }

  lemma HeldByBoth(a: seq<map<nat, Entry>>, b: seq<map<nat, Entry>>, keyOf: map<nat, nat>, v: nat)
    ensures HeldByAny(a + b, keyOf, v) <==> HeldByAny(a, keyOf, v) || HeldByAny(b, keyOf, v)
  {
    var ab := a + b;
    assert forall i :: 0 <= i < |a| ==> ab[i] == a[i];
    assert forall i :: 0 <= i < |b| ==> ab[|a| + i] == b[i];
  }

  ghost predicate AllFollow(a: seq<map<nat, Entry>>, b: seq<map<nat, Entry>>) {
    forall i, j :: 0 <= i < |a| && 0 <= j < |b| ==> Follows(a[i], b[j])
  }

  lemma JoinViews(lm: bool, a: seq<map<nat, Entry>>, b: seq<map<nat, Entry>>, c: map<nat, Entry>, d: map<nat, Entry>, m: map<nat, Entry>)
    requires a != [] && ViewsOf(lm, a, c) && ViewsOf(false, b, d) && LeftObjects(lm, c, d, m)
    ensures ViewsOf(lm, a + b, m)
  {
    forall k ensures k in m <==> Touched(a + b, k) { UserOfBoth(a, b, k); }
    forall k: nat, j | FirstUser(a + b, k, j)
      ensures k in m && m[k].view == if lm && j > 0 then k else (a + b)[j][k].view
    {
      UserOfBoth(a, b, k);
      if j < |a| {
        assert FirstUser(a, k, j) && (a + b)[j] == a[j];
      } else {
        assert FirstUser(b, k, j - |a|) && (a + b)[j] == b[j - |a|];
      }
    }
  }

  /** Where the view of a reducer in a result comes from. */
  lemma ViewHeld(lm: bool, cs: seq<map<nat, Entry>>, c: map<nat, Entry>, keyOf: map<nat, nat>, v: nat)
    requires ViewsOf(lm, cs, c) && Holds(c, keyOf, v)
    ensures HeldByAny(cs, keyOf, v) || (lm && v == keyOf[v])
  {
    var k := keyOf[v];
    var j := HasFirst(cs, k);
    if !(lm && j > 0) { assert Holds(cs[j], keyOf, v); }
  }

  lemma JoinValues<T>(lm: bool, a: seq<map<nat, Entry>>, b: seq<map<nat, Entry>>, c: map<nat, Entry>, d: map<nat, Entry>, m: map<nat, Entry>,
                      val0: map<nat, T>, val1: map<nat, T>, val2: map<nat, T>, val: map<nat, T>, keyOf: map<nat, nat>)
    requires ViewsOf(lm, a, c) && ViewsOf(false, b, d) && LeftObjects(lm, c, d, m)
    requires ValuesKept(a, c, val0, val1, keyOf) && ValuesKept(b, d, val1, val2, keyOf) && OthersKept(val2, val, m, keyOf)
    ensures ValuesKept(a + b, m, val0, val, keyOf)
  {
    forall v | v in val0 && !HeldByAny(a + b, keyOf, v) && !Holds(m, keyOf, v) ensures val[v] == val0[v] {
      HeldByBoth(a, b, keyOf, v);
      if Holds(c, keyOf, v) { ViewHeld(lm, a, c, keyOf, v); LeftKept(lm, c, d, m, keyOf, v); assert false; }
      if Holds(d, keyOf, v) { ViewHeld(false, b, d, keyOf, v); assert false; }
    }
  }

  lemma LeftKept(lm: bool, c: map<nat, Entry>, d: map<nat, Entry>, m: map<nat, Entry>, keyOf: map<nat, nat>, v: nat)
    requires LeftObjects(lm, c, d, m) && Holds(c, keyOf, v)
    ensures Holds(m, keyOf, v)
  {
  }

  lemma JoinHeap(lm: bool, a: seq<map<nat, Entry>>, b: seq<map<nat, Entry>>, c: map<nat, Entry>, d: map<nat, Entry>, m: map<nat, Entry>,
                 heap0: set<nat>, heap1: set<nat>, heap2: set<nat>, heap: set<nat>, keyOf: map<nat, nat>)
    requires ViewsOf(lm, a, c) && ViewsOf(false, b, d) && LeftObjects(lm, c, d, m) && AllFollow(a, b)
    requires HeapKept(a, c, heap0, heap1, keyOf) && HeapKept(b, d, heap1, heap2, keyOf) && Kept(heap2, heap, c, d, m, keyOf)
    requires forall v :: v in heap0 && v in keyOf && Touched(a + b, keyOf[v]) ==> keyOf[v] != v
    ensures HeapKept(a + b, m, heap0, heap, keyOf)
  {
    forall v ensures v in heap <==> v in heap0 && (HeldByAny(a + b, keyOf, v) ==> Holds(m, keyOf, v)) {
      if v in heap0 {
        HeldByBoth(a, b, keyOf, v);
        if v in keyOf { UserOfBoth(a, b, keyOf[v]); }
        JoinHeld(lm, a, b, c, d, m, keyOf, v);
      }
    }
  }

  lemma LaterDiffers(lm: bool, a: seq<map<nat, Entry>>, b: seq<map<nat, Entry>>, c: map<nat, Entry>, k: nat, j: nat)
    requires ViewsOf(lm, a, c) && AllFollow(a, b) && j < |b| && k in b[j]
    ensures k in c ==> c[k].view != b[j][k].view && b[j][k].view != k
  {
    if k in c {
      var i := HasFirst(a, k);
      assert Follows(a[i], b[j]);
    }
  }

  /** Of the views that are not leftmost ones, those in the result are those of the left result, and those
      of the right one where the left has none. */
  lemma JoinHeld(lm: bool, a: seq<map<nat, Entry>>, b: seq<map<nat, Entry>>, c: map<nat, Entry>, d: map<nat, Entry>, m: map<nat, Entry>,
                 keyOf: map<nat, nat>, v: nat)
    requires ViewsOf(lm, a, c) && ViewsOf(false, b, d) && LeftObjects(lm, c, d, m) && AllFollow(a, b)
    requires v in keyOf && (Touched(a, keyOf[v]) || Touched(b, keyOf[v])) ==> keyOf[v] != v
    ensures Holds(c, keyOf, v) ==> HeldByAny(a, keyOf, v) && Holds(m, keyOf, v)
    ensures Holds(d, keyOf, v) ==> HeldByAny(b, keyOf, v)
    ensures Holds(m, keyOf, v) && HeldByAny(a, keyOf, v) ==> Holds(c, keyOf, v)
    ensures Holds(m, keyOf, v) && HeldByAny(b, keyOf, v) ==> Holds(d, keyOf, v)
  {
    if Holds(c, keyOf, v) { ViewHeld(lm, a, c, keyOf, v); LeftKept(lm, c, d, m, keyOf, v); }
    if Holds(d, keyOf, v) { ViewHeld(false, b, d, keyOf, v); }
    if Holds(m, keyOf, v) && HeldByAny(a, keyOf, v) {
      var i :| 0 <= i < |a| && Holds(a[i], keyOf, v);
      assert Touched(a, keyOf[v]);
    }
    if Holds(m, keyOf, v) && HeldByAny(b, keyOf, v) {
      var k := keyOf[v];
      var j :| 0 <= j < |b| && Holds(b[j], keyOf, v);
      assert Touched(b, k);
      LaterDiffers(lm, a, b, c, k, j);
    }
  }

  // ---------------------------------------------------------------- and its value

  lemma MeaningsOfBoth<T>(a: seq<map<nat, Entry>>, b: seq<map<nat, Entry>>, val: map<nat, T>)
    ensures Meanings(a + b, val) == Meanings(a, val) + Meanings(b, val)
  {
  }

  /** What one join makes of a reducer, by what the two sides make of it. */
  lemma JoinSerial<T(!new)>(op: (nat, T, T) -> T, lm: bool, a: seq<map<nat, Entry>>, b: seq<map<nat, Entry>>, val: map<nat, T>, k: nat)
    requires Associative(op) && a != [] && AllFollow(a, b)
    requires forall j :: 0 <= j < |b| ==> Meaning(b[j], val).Keys == b[j].Keys
    requires forall i :: 0 <= i < |a| ==> Meaning(a[i], val).Keys == a[i].Keys
    ensures var x, y := SerialUse(op, lm, a, val, k), SerialUse(op, false, b, val, k);
      SerialUse(op, lm, a + b, val, k)
        == Reduced(op, k, if x == None && y.Some? then Start(lm, a + b, val, k) else x, y)
  {
    UserOfBoth(a, b, k);
    MeaningsOfBoth(a, b, val);
    var start := Start(lm, a + b, val, k);
    var ma, mb := Meanings(a, val), Meanings(b, val);
    SerialAppend(op, k, start, ma, mb);
    SerialFrom(op, k, Serial(op, k, start, ma), mb);
    SerialUnused(op, k, start, ma);
    SerialUnused(op, k, None, mb);
    ReducedNone(op, k, SerialUse(op, lm, a, val, k));
    ReducedNone(op, k, start);
    StartOfBoth(lm, a, b, val, k);
    hide Associative, Reduced, Serial, Start;
    if Touched(a, k) {
      assert start == Start(lm, a, val, k);
      assert forall i :: 0 <= i < |a| ==> (k in ma[i] <==> k in a[i]);
      assert SerialUse(op, lm, a, val, k).Some?;
      if !Touched(b, k) { SerialUnused(op, k, None, mb); assert Serial(op, k, None, mb) == None; }
    } else {
      assert Serial(op, k, start, ma) == start;
    }
  }

  lemma StartOfBoth<T>(lm: bool, a: seq<map<nat, Entry>>, b: seq<map<nat, Entry>>, val: map<nat, T>, k: nat)
    requires a != [] && AllFollow(a, b)
    ensures Touched(a, k) ==> Start(lm, a + b, val, k) == Start(lm, a, val, k)
    ensures Start(false, b, val, k) == None
  {
    var ab := a + b;
    assert forall i :: 0 <= i < |a| ==> ab[i] == a[i];
    assert forall i :: 0 <= i < |b| ==> ab[|a| + i] == b[i];
    if i :| 0 <= i < |a| && k in a[i] {
      forall j | 0 <= j < |b| && k in b[j] ensures b[j][k].view != k { assert Follows(a[i], b[j]); }
      forall j | |a| <= j < |ab| && k in ab[j] ensures ab[j][k].view != k { assert ab[j] == b[j - |a|]; }
    }
  }

  /** The value that the merge of the two results gives a reducer. */
  lemma JoinMeaning<T(!new)>(op: (nat, T, T) -> T, lm: bool, a: seq<map<nat, Entry>>, b: seq<map<nat, Entry>>,
                             c: map<nat, Entry>, d: map<nat, Entry>, m: map<nat, Entry>,
                             val0: map<nat, T>, val2: map<nat, T>, val: map<nat, T>, k: nat)
    requires Associative(op) && a != [] && AllFollow(a, b) && ViewsOf(lm, a, c) && ViewsOf(false, b, d)
    requires forall i, j :: 0 <= i < j < |b| ==> Follows(b[i], b[j])
    requires forall i :: 0 <= i < |a| ==> Meaning(a[i], val0).Keys == a[i].Keys
    requires forall j :: 0 <= j < |b| ==> Meaning(b[j], val0).Keys == b[j].Keys
    requires Use(Meaning(c, val2), k) == SerialUse(op, lm, a, val0, k) && Use(Meaning(d, val2), k) == SerialUse(op, false, b, val0, k)
    requires Meaning(c, val2).Keys == c.Keys && Meaning(d, val2).Keys == d.Keys
    requires lm && k in d && k !in c && d[k].view != k ==> k in val0 && k in val2 && val2[k] == val0[k]
    requires Meaning(m, val) == CombineInto(op, Initial(lm, d, val2), Meaning(c, val2), Meaning(d, val2))
    ensures Use(Meaning(m, val), k) == SerialUse(op, lm, a + b, val0, k)
  {
    JoinSerial(op, lm, a, b, val0, k);
    hide SerialUse, Associative, Meaning;
    if k in d && k !in c {
      StartNow(lm, a, b, c, d, val0, k);
    }
  }

  /** What a join finds the reducer to start from when only the right side has used it. */
  lemma StartNow<T>(lm: bool, a: seq<map<nat, Entry>>, b: seq<map<nat, Entry>>, c: map<nat, Entry>, d: map<nat, Entry>, val0: map<nat, T>, k: nat)
    requires a != [] && ViewsOf(lm, a, c) && ViewsOf(false, b, d) && k in d && k !in c
    requires forall i, j :: 0 <= i < j < |b| ==> Follows(b[i], b[j])
    ensures Start(lm, a + b, val0, k) == if lm && d[k].view != k && k in val0 then Some(val0[k]) else None
  {
    var ab := a + b;
    assert forall i :: 0 <= i < |a| ==> ab[i] == a[i];
    assert forall i :: 0 <= i < |b| ==> ab[|a| + i] == b[i];
    assert forall i :: 0 <= i < |a| ==> k !in a[i] by { assert !Touched(a, k); }
    var n := HasFirst(b, k);
    assert d[k].view == b[n][k].view && ab[|a| + n] == b[n];
    forall j | 0 <= j < |ab| && k in ab[j] && d[k].view != k ensures ab[j][k].view != k {
      if j >= |a| && j - |a| != n {
        assert Follows(b[n], b[j - |a|]);
      }
    }
  }

  // ---------------------------------------------------------------- the join as a whole

  lemma ReadyParts<T>(lm: bool, a: seq<map<nat, Entry>>, b: seq<map<nat, Entry>>, val: map<nat, T>, heap: set<nat>, keyOf: map<nat, nat>)
    requires Ready(lm, a + b, val, heap, keyOf)
    ensures Ready(lm, a, val, heap, keyOf) && Ready(false, b, val, heap, keyOf) && AllFollow(a, b)
    ensures lm ==> forall j, k :: 0 <= j < |b| && k in b[j] ==> HasLeftmost(val, keyOf, k)
  {
    hide Owns, Follows, HasLeftmost;
    var ab := a + b;
    assert forall i :: 0 <= i < |a| ==> ab[i] == a[i];
    assert forall i :: 0 <= i < |b| ==> ab[|a| + i] == b[i];
    forall i, j | 0 <= i < |a| && 0 <= j < |b| ensures Follows(a[i], b[j]) {
      assert Follows(ab[i], ab[|a| + j]);
    }
    forall i, j | 0 <= i < j < |b| ensures Follows(b[i], b[j]) {
      assert Follows(ab[|a| + i], ab[|a| + j]);
    }
  }

  lemma KeysNotAllocated<T>(lm: bool, cs: seq<map<nat, Entry>>, val: map<nat, T>, heap: set<nat>, keyOf: map<nat, nat>)
    requires Ready(lm, cs, val, heap, keyOf)
    ensures forall v :: v in heap && v in keyOf && Touched(cs, keyOf[v]) ==> keyOf[v] != v
  {
    forall v | v in heap && v in keyOf && Touched(cs, keyOf[v]) ensures keyOf[v] != v {
      var j :| 0 <= j < |cs| && keyOf[v] in cs[j];
      assert Owns(cs[j], val, heap, keyOf);
    }
  }

  /** A leftmost view that is about to be used first still has its first value. */
  lemma LeftmostKept<T>(lm: bool, a: seq<map<nat, Entry>>, b: seq<map<nat, Entry>>, c: map<nat, Entry>, d: map<nat, Entry>,
                        val0: map<nat, T>, val1: map<nat, T>, val2: map<nat, T>, keyOf: map<nat, nat>, k: nat)
    requires ViewsOf(lm, a, c) && ViewsOf(false, b, d) && ValuesKept(a, c, val0, val1, keyOf) && ValuesKept(b, d, val1, val2, keyOf)
    requires forall i, j :: 0 <= i < j < |b| ==> Follows(b[i], b[j])
    requires HasLeftmost(val0, keyOf, k) && k in d && k !in c && d[k].view != k
    ensures k in val2 && val2[k] == val0[k]
  {
    assert !Touched(a, k);
    var n := HasFirst(b, k);
    forall j | 0 <= j < |b| ensures !Holds(b[j], keyOf, k) {
      if k in b[j] && j != n { assert Follows(b[n], b[j]); }
    }
    assert !HeldByAny(a, keyOf, k) && !Holds(c, keyOf, k) && !HeldByAny(b, keyOf, k) && !Holds(d, keyOf, k);
  }

  /** The right strands' maps mean the same after the left joins. */
  lemma SameSerial<T>(op: (nat, T, T) -> T, b: seq<map<nat, Entry>>, val0: map<nat, T>, val1: map<nat, T>, k: nat)
    requires forall j :: 0 <= j < |b| ==> Meaning(b[j], val1) == Meaning(b[j], val0)
    ensures SerialUse(op, false, b, val1, k) == SerialUse(op, false, b, val0, k)
  {
    assert Meanings(b, val1) == Meanings(b, val0);
  }

  lemma AllMeaningKeys<T>(cs: seq<map<nat, Entry>>, val: map<nat, T>, heap: set<nat>, keyOf: map<nat, nat>)
    requires forall j :: 0 <= j < |cs| ==> Owns(cs[j], val, heap, keyOf)
    ensures forall j :: 0 <= j < |cs| ==> Meaning(cs[j], val).Keys == cs[j].Keys
  {
    forall j | 0 <= j < |cs| ensures Meaning(cs[j], val).Keys == cs[j].Keys { OwnedMeaning(cs[j], val, heap, keyOf); }
  }

  lemma JoinSerialMeaning<T(!new)>(op: (nat, T, T) -> T, lm: bool, a: seq<map<nat, Entry>>, b: seq<map<nat, Entry>>,
                          c: map<nat, Entry>, d: map<nat, Entry>, m: map<nat, Entry>,
                          val0: map<nat, T>, val1: map<nat, T>, val2: map<nat, T>, val: map<nat, T>,
                          heap0: set<nat>, heap1: set<nat>, heap2: set<nat>, keyOf: map<nat, nat>)
    requires Associative(op) && a != [] && Ready(lm, a + b, val0, heap0, keyOf)
    requires ViewsOf(lm, a, c) && ValuesKept(a, c, val0, val1, keyOf) && HeapKept(a, c, heap0, heap1, keyOf)
    requires ViewsOf(false, b, d) && ValuesKept(b, d, val1, val2, keyOf) && HeapKept(b, d, heap1, heap2, keyOf)
    requires SerialMeaning(op, lm, a, c, val0, val1) && SerialMeaning(op, false, b, d, val1, val2)
    requires Owns(c, val1, heap1, keyOf) && Owns(d, val2, heap2, keyOf)
    requires Meaning(m, val) == CombineInto(op, Initial(lm, d, val2), Meaning(c, val2), Meaning(d, val2))
    ensures SerialMeaning(op, lm, a + b, m, val0, val)
  {
    hide ViewsOf, ValuesKept, HeapKept, Meaning, CombineInto, Initial, Associative, Follows, Owns, SerialUse, HasLeftmost;
    ReadyParts(lm, a, b, val0, heap0, keyOf);
    forall j | 0 <= j < |b| ensures Meaning(b[j], val1) == Meaning(b[j], val0) && Follows(c, b[j]) {
      LaterStill(lm, a, c, b[j], val0, val1, heap0, heap1, keyOf);
    }
    EarlierStill(b, c, d, val1, val2, heap1, heap2, keyOf);
    AllMeaningKeys(a, val0, heap0, keyOf);
    AllMeaningKeys(b, val0, heap0, keyOf);
    OwnedMeaning(c, val2, heap2, keyOf);
    OwnedMeaning(d, val2, heap2, keyOf);
    forall k ensures Use(Meaning(m, val), k) == SerialUse(op, lm, a + b, val0, k) {
      SameSerial(op, b, val0, val1, k);
      if lm && k in d && k !in c && d[k].view != k {
        TouchedLeftmost(b, d, val0, keyOf, k);
        LeftmostKept(lm, a, b, c, d, val0, val1, val2, keyOf, k);
      }
      assert HasLeftmost(val0, keyOf, k) ==> k in val0 by { LeftmostIn(val0, keyOf, k); }
      JoinMeaning(op, lm, a, b, c, d, m, val0, val2, val, k);
    }
  }

  lemma LeftmostIn<T>(val: map<nat, T>, keyOf: map<nat, nat>, k: nat)
    ensures HasLeftmost(val, keyOf, k) ==> k in val
  {
  }

  lemma TouchedLeftmost<T>(b: seq<map<nat, Entry>>, d: map<nat, Entry>, val: map<nat, T>, keyOf: map<nat, nat>, k: nat)
    requires ViewsOf(false, b, d) && k in d && forall j, k :: 0 <= j < |b| && k in b[j] ==> HasLeftmost(val, keyOf, k)
    ensures HasLeftmost(val, keyOf, k)
  {
    assert Touched(b, k);
    hide HasLeftmost;
  }

  /** Everything about one more join. */
  lemma JoinStep<T(!new)>(op: (nat, T, T) -> T, lm: bool, a: seq<map<nat, Entry>>, b: seq<map<nat, Entry>>,
                          c: map<nat, Entry>, d: map<nat, Entry>, m: map<nat, Entry>,
                          val0: map<nat, T>, val1: map<nat, T>, val2: map<nat, T>, val: map<nat, T>,
                          heap0: set<nat>, heap1: set<nat>, heap2: set<nat>, heap: set<nat>, keyOf: map<nat, nat>)
    requires Associative(op) && a != [] && Ready(lm, a + b, val0, heap0, keyOf)
    requires Joined(op, lm, a, c, val0, val1, heap0, heap1, keyOf) && Joined(op, false, b, d, val1, val2, heap1, heap2, keyOf)
    requires LeftObjects(lm, c, d, m) && OthersKept(val2, val, m, keyOf) && Kept(heap2, heap, c, d, m, keyOf) && Owns(m, val, heap, keyOf)
    requires Meaning(m, val) == CombineInto(op, Initial(lm, d, val2), Meaning(c, val2), Meaning(d, val2)) && BasesFrom(c, d, m)
    ensures Joined(op, lm, a + b, m, val0, val, heap0, heap, keyOf)
  {
    hide BasesOf, BasesFrom, ViewsOf, ValuesKept, HeapKept, SerialMeaning, Owns, Ready, LeftObjects, OthersKept, Kept, Associative, Meaning, CombineInto, Initial;
    ReadyParts(lm, a, b, val0, heap0, keyOf);
    JoinBases(a, b, c, d, m);
    JoinViews(lm, a, b, c, d, m);
    JoinValues(lm, a, b, c, d, m, val0, val1, val2, val, keyOf);
    KeysNotAllocated(lm, a + b, val0, heap0, keyOf);
    JoinHeap(lm, a, b, c, d, m, heap0, heap1, heap2, heap, keyOf);
    JoinSerialMeaning(op, lm, a, b, c, d, m, val0, val1, val2, val, heap0, heap1, heap2, keyOf);
  }

  /** What a join needs, after the joins on both sides. */
  lemma JoinPossible<T(!new)>(op: (nat, T, T) -> T, lm: bool, a: seq<map<nat, Entry>>, b: seq<map<nat, Entry>>,
                              c: map<nat, Entry>, d: map<nat, Entry>, val0: map<nat, T>, val1: map<nat, T>, val2: map<nat, T>,
                              heap0: set<nat>, heap1: set<nat>, heap2: set<nat>, keyOf: map<nat, nat>)
    requires Ready(lm, a + b, val0, heap0, keyOf)
    requires Joined(op, lm, a, c, val0, val1, heap0, heap1, keyOf) && Joined(op, false, b, d, val1, val2, heap1, heap2, keyOf)
    ensures Mergeable(lm, c, d, val2, heap2, keyOf)
  {
    hide SerialMeaning, HasLeftmost, Follows;
    ReadyParts(lm, a, b, val0, heap0, keyOf);
    forall j | 0 <= j < |b| ensures Follows(c, b[j]) {
      LaterStill(lm, a, c, b[j], val0, val1, heap0, heap1, keyOf);
    }
    EarlierStill(b, c, d, val1, val2, heap1, heap2, keyOf);
    forall k | lm && k in d ensures k in val2 && k in keyOf && keyOf[k] == k && k != 0 {
      TouchedLeftmost(b, d, val0, keyOf, k);
      LeftmostFacts(val0, keyOf, k);
    }
    hide ViewsOf, HeapKept, Owns;
  }

  lemma LeftmostFacts<T>(val: map<nat, T>, keyOf: map<nat, nat>, k: nat)
    requires HasLeftmost(val, keyOf, k)
    ensures k in val && k in keyOf && keyOf[k] == k && k != 0
  {
  }

  /** The right strands are ready when the left ones have joined. */
  lemma RightReady<T(!new)>(op: (nat, T, T) -> T, lm: bool, a: seq<map<nat, Entry>>, b: seq<map<nat, Entry>>, c: map<nat, Entry>,
                            val0: map<nat, T>, val: map<nat, T>, heap0: set<nat>, heap: set<nat>, keyOf: map<nat, nat>)
    requires Ready(lm, a + b, val0, heap0, keyOf) && Joined(op, lm, a, c, val0, val, heap0, heap, keyOf) && 0 !in heap0
    ensures Ready(false, b, val, heap, keyOf) && 0 !in heap
  {
    hide SerialMeaning, HasLeftmost, Follows, ViewsOf, ValuesKept, Owns;
    ReadyParts(lm, a, b, val0, heap0, keyOf);
    forall j | 0 <= j < |b| ensures Owns(b[j], val, heap, keyOf) {
      LaterStill(lm, a, c, b[j], val0, val, heap0, heap, keyOf);
    }
  }

  // ---------------------------------------------------------------- the code

  ghost function ContentsOf(m: RedMap?): map<nat, Entry>
    reads m
  {
    if m == null then map[] else m.contents
  }

  /** One merge, with a missing map counted as an empty one. */
  method MergeTwo<T>(left: RedMap?, right: RedMap?, store: Views<T>, op: (nat, T, T) -> T, ghost lm: bool) returns (m: RedMap?)
    requires left != null ==> left.Valid() && left.isLeftmost == lm
    requires left == null ==> !lm
    requires right != null ==> right.Valid() && !right.isLeftmost && right != left
    requires Mergeable(lm, ContentsOf(left), ContentsOf(right), store.val, store.heap, store.keyOf) && 0 !in store.heap
    modifies left, right, store`val, store`heap
    ensures m != null ==> m in {left, right} && m.Valid() && m.isLeftmost == lm
    ensures m == null ==> !lm
    ensures Owns(ContentsOf(m), store.val, store.heap, store.keyOf)
    ensures Meaning(ContentsOf(m), store.val)
         == old(CombineInto(op, Initial(lm, ContentsOf(right), store.val),
                            Meaning(ContentsOf(left), store.val), Meaning(ContentsOf(right), store.val)))
    ensures LeftObjects(lm, old(ContentsOf(left)), old(ContentsOf(right)), ContentsOf(m))
    ensures BasesFrom(old(ContentsOf(left)), old(ContentsOf(right)), ContentsOf(m))
    ensures OthersKept(old(store.val), store.val, ContentsOf(m), store.keyOf)
    ensures Kept(old(store.heap), store.heap, old(ContentsOf(left)), old(ContentsOf(right)), ContentsOf(m), store.keyOf)
  {
    hide Owns, Meaning, CombineInto, RedMap.Valid, Holds, OthersKept, Kept, LeftObjects, Initial, Mergeable, BasesFrom;
    MergeWithNone(op, lm, ContentsOf(left), ContentsOf(right), store.val, store.heap, store.keyOf);
    if left == null || right == null {
      m := MergeReducerMaps(left, right, store, op);
      assert ContentsOf(m) == if left == null then old(ContentsOf(right)) else old(ContentsOf(left));
    } else {
      m := MergeReducerMaps(left, right, store, op);
    }
  }

  lemma MergeWithNone<T>(op: (nat, T, T) -> T, lm: bool, c: map<nat, Entry>, d: map<nat, Entry>, val: map<nat, T>, heap: set<nat>, keyOf: map<nat, nat>)
    requires Mergeable(lm, c, d, val, heap, keyOf)
    ensures Owns(c, val, heap, keyOf) && Owns(d, val, heap, keyOf)
    ensures d == map[] ==>
      && CombineInto(op, Initial(lm, d, val), Meaning(c, val), Meaning(d, val)) == Meaning(c, val)
      && LeftObjects(lm, c, d, c) && Kept(heap, heap, c, d, c, keyOf) && BasesFrom(c, d, c)
    ensures c == map[] && !lm ==>
      && CombineInto(op, Initial(lm, d, val), Meaning(c, val), Meaning(d, val)) == Meaning(d, val)
      && LeftObjects(lm, c, d, d) && Kept(heap, heap, c, d, d, keyOf) && BasesFrom(c, d, d)
    ensures OthersKept(val, val, c, keyOf) && OthersKept(val, val, d, keyOf)
  {
  }

  /** How the strands of a computation were joined: any binary tree over their maps. */
  datatype Joins = One(m: RedMap?) | Two(left: Joins, right: Joins)

  ghost function Footprint(t: Joins): set<RedMap> {
    match t
    case One(m) => if m == null then {} else {m}
    case Two(l, r) => Footprint(l) + Footprint(r)
  }

  ghost predicate Disjoint(t: Joins) {
    t.Two? ==> Footprint(t.left) !! Footprint(t.right) && Disjoint(t.left) && Disjoint(t.right)
  }

  /** The strands' maps, in serial order. */
  ghost function Strands(t: Joins): (cs: seq<map<nat, Entry>>)
    reads Footprint(t)
    ensures cs != []
  {
    match t
    case One(m) => [ContentsOf(m)]
    case Two(l, r) => Strands(l) + Strands(r)
  }

  /** Good maps; only that of the first strand may be, and if `lm` is, the leftmost one. */
  ghost predicate Sound(t: Joins, lm: bool)
    reads Footprint(t)
  {
    match t
    case One(m) => if m == null then !lm else m.Valid() && m.isLeftmost == lm
    case Two(l, r) => Sound(l, lm) && Sound(r, false)
  }

  /** All joins of a computation.  In the map that is left every reducer has the value that the serial
      program gives it; every view of every strand is in that map or has been destroyed, once. */
  method MergeTree<T(!new)>(t: Joins, store: Views<T>, op: (nat, T, T) -> T, ghost lm: bool, ghost all: set<RedMap>) returns (m: RedMap?)
    requires Footprint(t) <= all && Disjoint(t) && Sound(t, lm) && 0 !in store.heap
    requires Associative(op) && Ready(lm, Strands(t), store.val, store.heap, store.keyOf)
    modifies Footprint(t), store`val, store`heap
    ensures m != null ==> m in Footprint(t) && m.Valid() && m.isLeftmost == lm
    ensures m == null ==> !lm
    ensures Joined(op, lm, old(Strands(t)), ContentsOf(m), old(store.val), store.val, old(store.heap), store.heap, store.keyOf)
    ensures forall base :: AllBased(old(Strands(t)), base) ==> Based(ContentsOf(m), base)
    decreases t, 2
  {
    m := MergeJoins(t, store, op, lm, all);
    hide Ready, RedMap.Valid, Associative, ViewsOf, ValuesKept, HeapKept, SerialMeaning, Owns, BasesOf, AllBased, Based;
    forall base | AllBased(old(Strands(t)), base) ensures Based(ContentsOf(m), base) {
      BasesBelong(old(Strands(t)), ContentsOf(m), base);
    }
  }

  method MergeJoins<T(!new)>(t: Joins, store: Views<T>, op: (nat, T, T) -> T, ghost lm: bool, ghost all: set<RedMap>) returns (m: RedMap?)
    requires Footprint(t) <= all && Disjoint(t) && Sound(t, lm) && 0 !in store.heap
    requires Associative(op) && Ready(lm, Strands(t), store.val, store.heap, store.keyOf)
    modifies Footprint(t), store`val, store`heap
    ensures m != null ==> m in Footprint(t) && m.Valid() && m.isLeftmost == lm
    ensures m == null ==> !lm
    ensures Joined(op, lm, old(Strands(t)), ContentsOf(m), old(store.val), store.val, old(store.heap), store.heap, store.keyOf)
    decreases t, 1
  {
    hide Ready, Joined, RedMap.Valid, Associative;
    match t
    case One(p) =>
      m := p;
      OneReady(lm, ContentsOf(p), store.val, store.heap, store.keyOf);
      LeafJoined(op, lm, ContentsOf(p), store.val, store.heap, store.keyOf);
    case Two(l, r) =>
      m := MergeSubtrees(l, r, store, op, lm, all);
  }

  lemma OneReady<T>(lm: bool, c: map<nat, Entry>, val: map<nat, T>, heap: set<nat>, keyOf: map<nat, nat>)
    requires Ready(lm, [c], val, heap, keyOf)
    ensures Owns(c, val, heap, keyOf)
  {
    assert [c][0] == c;
  }

  method MergeSubtrees<T(!new)>(l: Joins, r: Joins, store: Views<T>, op: (nat, T, T) -> T, ghost lm: bool, ghost all: set<RedMap>) returns (m: RedMap?)
    requires Footprint(l) + Footprint(r) <= all && Footprint(l) !! Footprint(r) && Disjoint(l) && Disjoint(r)
    requires Sound(l, lm) && Sound(r, false) && 0 !in store.heap
    requires Associative(op) && Ready(lm, Strands(l) + Strands(r), store.val, store.heap, store.keyOf)
    modifies Footprint(l), Footprint(r), store`val, store`heap
    ensures m != null ==> m in Footprint(l) + Footprint(r) && m.Valid() && m.isLeftmost == lm
    ensures m == null ==> !lm
    ensures Joined(op, lm, old(Strands(l) + Strands(r)), ContentsOf(m), old(store.val), store.val, old(store.heap), store.heap, store.keyOf)
    decreases Two(l, r), 0
  {
    hide Ready, Joined, RedMap.Valid, Associative, Footprint, Disjoint, Sound, Strands;
    ghost var a, b, val0, heap0 := Strands(l), Strands(r), store.val, store.heap;
    ReadyParts(lm, a, b, val0, heap0, store.keyOf);
    var left := MergeTree(l, store, op, lm, all);
    RightReady(op, lm, a, b, ContentsOf(left), val0, store.val, heap0, store.heap, store.keyOf);
    assert left != null ==> left in Footprint(l) && left !in Footprint(r);
    m := MergeRest(left, r, store, op, lm, all, a, val0, heap0);
  }

  /** The joins of the right part, and then with what the left part came to. */
  method MergeRest<T(!new)>(left: RedMap?, r: Joins, store: Views<T>, op: (nat, T, T) -> T, ghost lm: bool, ghost all: set<RedMap>,
                            ghost a: seq<map<nat, Entry>>, ghost val0: map<nat, T>, ghost heap0: set<nat>) returns (m: RedMap?)
    requires Footprint(r) <= all && Disjoint(r) && Sound(r, false) && 0 !in store.heap && a != []
    requires left != null ==> left !in Footprint(r) && left.Valid() && left.isLeftmost == lm
    requires left == null ==> !lm
    requires Associative(op) && Ready(lm, a + Strands(r), val0, heap0, store.keyOf) && Ready(false, Strands(r), store.val, store.heap, store.keyOf)
    requires Joined(op, lm, a, ContentsOf(left), val0, store.val, heap0, store.heap, store.keyOf)
    modifies left, Footprint(r), store`val, store`heap
    ensures m != null ==> (m == left || m in Footprint(r)) && m.Valid() && m.isLeftmost == lm
    ensures m == null ==> !lm
    ensures Joined(op, lm, a + old(Strands(r)), ContentsOf(m), val0, store.val, heap0, store.heap, store.keyOf)
    decreases r, 3
  {
    hide Ready, Joined, RedMap.Valid, Associative, Footprint, Disjoint, Sound, Strands, Mergeable, Meaning, CombineInto, LeftObjects, OthersKept, Kept, Owns, Initial, BasesFrom;
    ghost var b, c, val1, heap1 := Strands(r), ContentsOf(left), store.val, store.heap;
    var right := MergeTree(r, store, op, false, all);
    ghost var d, val2, heap2 := ContentsOf(right), store.val, store.heap;
    assert ContentsOf(left) == c && (right == null || right != left);
    JoinPossible(op, lm, a, b, c, d, val0, val1, val2, heap0, heap1, heap2, store.keyOf);
    NoZero(b, d, heap1, heap2, op, val1, val2, store.keyOf);
    m := MergeTwo(left, right, store, op, lm);
    JoinStep(op, lm, a, b, c, d, ContentsOf(m), val0, val1, val2, store.val, heap0, heap1, heap2, store.heap, store.keyOf);
  }

  lemma NoZero<T(!new)>(b: seq<map<nat, Entry>>, d: map<nat, Entry>, heap1: set<nat>, heap2: set<nat>, op: (nat, T, T) -> T, val1: map<nat, T>, val2: map<nat, T>, keyOf: map<nat, nat>)
    requires Joined(op, false, b, d, val1, val2, heap1, heap2, keyOf) && 0 !in heap1
    ensures 0 !in heap2
  {
  }

  // ---------------------------------------------------------------- determinism

  /** The same strands, whatever objects and addresses they use: the same values for the same reducers,
      leftmost views with the same strands, and the same first values in them. */
  ghost predicate SameStrands<T>(cs: seq<map<nat, Entry>>, val: map<nat, T>, ds: seq<map<nat, Entry>>, wal: map<nat, T>) {
    && |cs| == |ds|
    && (forall j :: 0 <= j < |cs| ==> cs[j].Keys == ds[j].Keys && Meaning(cs[j], val) == Meaning(ds[j], wal))
    && (forall j, k :: 0 <= j < |cs| && k in cs[j] && k in ds[j] ==> (cs[j][k].view == k <==> ds[j][k].view == k))
    && (forall k :: Touched(cs, k) ==> Use(val, k) == Use(wal, k))
  }

  lemma SameStrandsSameUse<T>(op: (nat, T, T) -> T, lm: bool, cs: seq<map<nat, Entry>>, val: map<nat, T>,
                              ds: seq<map<nat, Entry>>, wal: map<nat, T>, k: nat)
    requires SameStrands(cs, val, ds, wal)
    ensures SerialUse(op, lm, cs, val, k) == SerialUse(op, lm, ds, wal, k)
  {
    hide Meaning, Serial;
    assert Touched(cs, k) <==> Touched(ds, k) by {
      assert forall j :: 0 <= j < |cs| ==> (k in cs[j] <==> k in ds[j]);
    }
    assert Meanings(cs, val) == Meanings(ds, wal);
    if Touched(cs, k) {
      assert Use(val, k) == Use(wal, k);
      assert cs != [] ==> (k in cs[0] <==> k in ds[0]);
      assert (forall j :: 0 <= j < |cs| && k in cs[j] ==> cs[j][k].view != k)
        <==> (forall j :: 0 <= j < |ds| && k in ds[j] ==> ds[j][k].view != k);
    }
  }

  /** Two runs of a computation, with different joins, table sizes and addresses, give every reducer the
      same value. */
  method TwoRuns<T(!new)>(t: Joins, store: Views<T>, u: Joins, other: Views<T>, op: (nat, T, T) -> T, ghost lm: bool,
                          ghost all: set<RedMap>) returns (m: RedMap?, n: RedMap?)
    requires store != other && Footprint(t) + Footprint(u) <= all && Footprint(t) !! Footprint(u)
    requires Disjoint(t) && Sound(t, lm) && 0 !in store.heap && Ready(lm, Strands(t), store.val, store.heap, store.keyOf)
    requires Disjoint(u) && Sound(u, lm) && 0 !in other.heap && Ready(lm, Strands(u), other.val, other.heap, other.keyOf)
    requires Associative(op) && SameStrands(Strands(t), store.val, Strands(u), other.val)
    modifies Footprint(t), Footprint(u), store`val, store`heap, other`val, other`heap
    ensures Meaning(ContentsOf(m), store.val) == Meaning(ContentsOf(n), other.val)
    ensures forall k :: Use(Meaning(ContentsOf(m), store.val), k) == old(SerialUse(op, lm, Strands(t), store.val, k))
  {
    hide Ready, RedMap.Valid, Associative, Footprint, Disjoint, Sound, Strands, SameStrands, ViewsOf, ValuesKept, HeapKept, Owns, Meaning, SerialUse;
    ghost var cs, val, ds, wal := Strands(t), store.val, Strands(u), other.val;
    m := MergeTree(t, store, op, lm, all);
    ghost var x := Meaning(ContentsOf(m), store.val);
    assert m != null ==> m !in Footprint(u);
    n := MergeTree(u, other, op, lm, all);
    ghost var y := Meaning(ContentsOf(n), other.val);
    assert Meaning(ContentsOf(m), store.val) == x;
    forall k ensures Use(x, k) == Use(y, k) {
      SameStrandsSameUse(op, lm, cs, val, ds, wal, k);
    }
    SameUses(x, y);
  }

  lemma SameUses<T>(x: map<nat, T>, y: map<nat, T>)
    requires forall k :: Use(x, k) == Use(y, k)
    ensures x == y
  {
    forall k ensures (k in x <==> k in y) && (k in x ==> x[k] == y[k]) {
      assert Use(x, k) == Use(y, k);
    }
  }
}
