/**
 Pedigrees with their hash kept up to date: every node on the chain from the current strand to
 the root stores its depth and the dot product of the ranks up to it with a random vector,
 reduced by a modulus, in 64-bit arithmetic.  `ValidatePedigree` is the definition; the other routines
 update the hash incrementally.
*/
module PedigreeHash {
  import opened Arithmetic

  /** The source's name; 2^63 - 58 is even, and nothing here needs it to be a prime. */
  const BIG_PRIME: nat := 0x7FFF_FFFF_FFFF_FFC6
  const TWO_64: nat := 0x1_0000_0000_0000_0000
  const TWO_31: nat := 0x8000_0000
  const TWO_32: nat := 0x1_0000_0000
  const VEC_SIZE: nat := 256

  /** Unsigned 64-bit arithmetic. */
  function U64(x: nat): nat {
    x % TWO_64
  }

  /** The conditional reduction of the source. */
  function Reduce(x: nat): nat {
    if x >= BIG_PRIME then x % BIG_PRIME else x
  }

  /** The compression vector: entries as `rand` gives them. */
  predicate VecOk(vec: seq<nat>) {
    |vec| == VEC_SIZE && forall i :: 0 <= i < |vec| ==> vec[i] < TWO_31
  }

  /** Ranks from the current strand up to the root, weighed by depth. */
  function Dot(vec: seq<nat>, ranks: seq<nat>): nat
    requires |ranks| <= |vec|
  {
    if ranks == [] then 0 else ranks[0] * vec[|ranks| - 1] + Dot(vec, ranks[1..])
  }

  function Weigh(rank: nat, v: nat): nat {
    rank * v
  }

  // ---------------------------------------------------------------- arithmetic

  lemma ReduceIsMod(x: nat)
    ensures Reduce(x) == x % BIG_PRIME < BIG_PRIME
  {
  }

  /** Adding one entry to a hash that is right, the way the source does it: no wrap, right again. */
  lemma AddEntry(sum: nat, v: nat)
    requires v < TWO_31
    ensures Reduce(U64(sum % BIG_PRIME + v)) == (sum + v) % BIG_PRIME
  {
    ReduceIsMod(sum % BIG_PRIME + v);
    ModAdd(sum, v, BIG_PRIME);
  }

  lemma ProductBound(r: nat, v: nat, m: nat, n: nat)
    requires r <= m && v <= n
    ensures r * v <= m * n
  {
    assert r * v <= r * n by { MulLeft(v, n, r); }
    assert r * n <= m * n by { MulLeft(r, m, n); }
  }

  lemma MulLeft(a: nat, b: nat, c: nat)
    requires a <= b
    ensures c * a <= c * b && a * c <= b * c
  {
  }

  /** With any 64-bit rank the product may wrap, and the hash is right exactly when it does not. */
  lemma AddProductExact(a: nat, r: nat, v: nat)
    requires a < BIG_PRIME && r < TWO_64 && v < TWO_31
    ensures Reduce(U64(a + Weigh(r, v))) == (a + Weigh(r, v)) % BIG_PRIME <==> a + Weigh(r, v) < TWO_64
  {
    hide Reduce, U64;
    ProductBound(r, v, TWO_64, TWO_31 - 1);
    ExactWhenFits(a + Weigh(r, v));
  }

  lemma ExactWhenFits(x: nat)
    requires x < TWO_64 * TWO_31
    ensures Reduce(U64(x)) == x % BIG_PRIME <==> x < TWO_64
  {
    ReduceIsMod(U64(x));
    if x >= TWO_64 {
      WrappedIsWrong(x);
    }
  }

  /** 2^64 is 116 more than twice the modulus, so a wrapped sum is off by 116 for every wrap. */
  lemma WrappedIsWrong(x: nat)
    requires TWO_64 <= x < TWO_64 * TWO_31
    ensures U64(x) % BIG_PRIME != x % BIG_PRIME
  {
    var k, low := x / TWO_64, U64(x);
    assert x == k * TWO_64 + low && 1 <= k < TWO_31;
    hide U64;
    Wraps(k, low);
    ModShift(2 * k, 116 * k + low, BIG_PRIME);
    SmallShift(low, 116 * k, BIG_PRIME);
  }

  lemma Wraps(k: nat, low: nat)
    ensures k * TWO_64 + low == (2 * k) * BIG_PRIME + (116 * k + low)
  {
  }

  lemma SmallShift(x: nat, d: nat, p: nat)
    requires 0 < d < p
    ensures (d + x) % p != x % p
  {
    var q, r := x / p, x % p;
    assert d + x == q * p + (d + r);
    ModShift(q, d + r, p);
    if d + r < p {
      ModUnique(0, d + r, p);
    } else {
      assert d + r == 1 * p + (d + r - p);
      ModUnique(1, d + r - p, p);
    }
  }

  // ---------------------------------------------------------------- chains

  class Pedigree {
    var rank: nat
    var parent: Pedigree?
    var length: nat
    var actual: nat

    constructor Copy(p: Pedigree)
      ensures rank == p.rank && parent == p.parent && length == p.length && actual == p.actual
    {
      rank, parent, length, actual := p.rank, p.parent, p.length, p.actual;
    }

    /** The first node of a pedigree. */
    constructor Root(vec: seq<nat>)
      requires VecOk(vec)
      ensures rank == 1 && parent == null && length == 1 && actual == vec[0]
    {
      rank, parent, length, actual := 1, null, 1, vec[0];
    }
  }

  ghost function Ranks(chain: seq<Pedigree>): (r: seq<nat>)
    reads chain
    ensures |r| == |chain| && forall i :: 0 <= i < |chain| ==> r[i] == chain[i].rank
  {
    seq(|chain|, i requires 0 <= i < |chain| reads chain => chain[i].rank)
  }

  /** The hash of a pedigree. */
  ghost function Hash(vec: seq<nat>, ranks: seq<nat>): nat
    requires |ranks| <= |vec|
  {
    Dot(vec, ranks) % BIG_PRIME
  }

  ghost predicate NodeOk(vec: seq<nat>, chain: seq<Pedigree>, i: nat)
    requires i < |chain| <= |vec|
    reads chain
  {
    && chain[i].length == |chain| - i
    && chain[i].parent == (if i + 1 < |chain| then chain[i + 1] else null)
    && chain[i].actual == Hash(vec, Ranks(chain)[i..])
  }

  /** `chain` lists the nodes from the first one up to the root; every node knows its depth and its
      own hash. */
  ghost predicate ChainOk(vec: seq<nat>, chain: seq<Pedigree>)
    reads chain
  {
    VecOk(vec) && 0 < |chain| <= VEC_SIZE && forall i :: 0 <= i < |chain| ==> NodeOk(vec, chain, i)
  }

  /** Depths differ, so nodes do. */
  lemma ChainDistinct(vec: seq<nat>, chain: seq<Pedigree>)
    requires ChainOk(vec, chain)
    ensures forall i, j :: 0 <= i < j < |chain| ==> chain[i] != chain[j]
  {
    forall i, j | 0 <= i < j < |chain| ensures chain[i] != chain[j] {
      assert NodeOk(vec, chain, i) && NodeOk(vec, chain, j);
    }
  }

  lemma NodeShift(vec: seq<nat>, chain: seq<Pedigree>, above: seq<Pedigree>, i: nat)
    requires |chain| <= |vec| && 0 < |chain| && above == chain[1..] && i < |above|
    ensures NodeOk(vec, chain, i + 1) <==> NodeOk(vec, above, i)
  {
    hide Hash;
    assert above[i] == chain[i + 1];
    assert Ranks(above)[i..] == Ranks(chain)[i + 1..];
  }

  /** A new first node on top of a good chain (or of none). */
  lemma ChainPush(vec: seq<nat>, p: Pedigree, above: seq<Pedigree>)
    requires VecOk(vec) && |above| < VEC_SIZE && (above != [] ==> ChainOk(vec, above))
    requires p.parent == (if above == [] then null else above[0]) && p.length == |above| + 1
    requires p.actual == Hash(vec, [p.rank] + Ranks(above))
    ensures ChainOk(vec, [p] + above) && Ranks([p] + above) == [p.rank] + Ranks(above)
  {
    var chain := [p] + above;
    assert chain[1..] == above;
    assert Ranks(chain) == [p.rank] + Ranks(above);
    assert Ranks(chain)[0..] == Ranks(chain);
    hide Hash;
    forall i | 0 <= i < |chain| ensures NodeOk(vec, chain, i) {
      if i > 0 {
        assert NodeOk(vec, above, i - 1);
        NodeShift(vec, chain, above, i - 1);
      }
    }
  }

  lemma ChainTail(vec: seq<nat>, chain: seq<Pedigree>)
    requires ChainOk(vec, chain)
    ensures |chain| > 1 ==> ChainOk(vec, chain[1..])
    ensures Ranks(chain[1..]) == Ranks(chain)[1..] && Ranks(chain) == [chain[0].rank] + Ranks(chain[1..])
    ensures chain[0].parent == (if |chain| > 1 then chain[1] else null) && chain[0].length == |chain|
    ensures chain[0].actual == Hash(vec, Ranks(chain))
  {
    var tail := chain[1..];
    assert Ranks(tail) == Ranks(chain)[1..];
    assert Ranks(chain)[0..] == Ranks(chain);
    assert NodeOk(vec, chain, 0);
    hide Hash;
    forall i | 0 <= i < |tail| ensures NodeOk(vec, tail, i) {
      assert NodeOk(vec, chain, i + 1);
      NodeShift(vec, chain, tail, i);
    }
  }

  /** All that the operations need to know about a good chain. */
  lemma ChainFacts(vec: seq<nat>, chain: seq<Pedigree>)
    requires ChainOk(vec, chain)
    ensures VecOk(vec) && 0 < |chain| <= VEC_SIZE && (|chain| > 1 ==> ChainOk(vec, chain[1..])) && chain[0] !in chain[1..]
    ensures Ranks(chain[1..]) == Ranks(chain)[1..] && Ranks(chain) == [chain[0].rank] + Ranks(chain[1..])
    ensures chain[0].parent == (if |chain| > 1 then chain[1] else null) && chain[0].length == |chain|
    ensures chain[0].actual == Hash(vec, Ranks(chain))
  {
    hide Hash;
    ChainTail(vec, chain);
    ChainDistinct(vec, chain);
  }

  lemma DotCons(vec: seq<nat>, r: nat, rs: seq<nat>)
    requires |rs| < |vec|
    ensures Dot(vec, [r] + rs) == r * vec[|rs|] + Dot(vec, rs)
  {
    assert ([r] + rs)[1..] == rs;
  }

  /** From the hash with rank `r` at the front to that with rank `r + 1`. */
  lemma HashIncrement(vec: seq<nat>, r: nat, rs: seq<nat>)
    requires VecOk(vec) && |rs| < VEC_SIZE
    ensures Reduce(U64(Hash(vec, [r] + rs) + vec[|rs|])) == Hash(vec, [r + 1] + rs)
  {
    hide Reduce, U64;
    var v := vec[|rs|];
    DotCons(vec, r, rs);
    DotCons(vec, r + 1, rs);
    OneMore(r, v);
    hide Dot;
    AddEntry(Dot(vec, [r] + rs), v);
  }

  lemma OneMore(r: nat, v: nat)
    ensures (r + 1) * v == r * v + v
  {
  }

  /** A new strand with rank 1. */
  lemma HashOne(vec: seq<nat>, rs: seq<nat>)
    requires VecOk(vec) && |rs| < VEC_SIZE
    ensures Reduce(U64(Hash(vec, rs) + vec[|rs|])) == Hash(vec, [1] + rs)
  {
    DotCons(vec, 1, rs);
    AddEntry(Dot(vec, rs), vec[|rs|]);
  }

  /** Rank `r` below `rs` is weighed without wrapping in 64 bits. */
  ghost predicate RankFits(vec: seq<nat>, r: nat, rs: seq<nat>)
    requires |rs| < |vec|
  {
    Hash(vec, rs) + Weigh(r, vec[|rs|]) < TWO_64
  }

  /** The hash of a new node with any 64-bit rank, as it is computed, is right exactly when the product
      does not wrap. */
  lemma HashRank(vec: seq<nat>, r: nat, rs: seq<nat>)
    requires VecOk(vec) && |rs| < VEC_SIZE && r < TWO_64
    ensures Reduce(U64(Hash(vec, rs) + Weigh(r, vec[|rs|]))) == Hash(vec, [r] + rs) <==> RankFits(vec, r, rs)
  {
    hide Reduce, U64, Weigh, Hash;
    HashCons(vec, r, rs);
    AddProductExact(Hash(vec, rs), r, vec[|rs|]);
  }

  lemma HashCons(vec: seq<nat>, r: nat, rs: seq<nat>)
    requires |rs| < |vec|
    ensures Hash(vec, rs) < BIG_PRIME && Hash(vec, [r] + rs) == (Hash(vec, rs) + Weigh(r, vec[|rs|])) % BIG_PRIME
  {
    DotCons(vec, r, rs);
    ModAdd(Dot(vec, rs), Weigh(r, vec[|rs|]), BIG_PRIME);
  }

  /** Ranks of at most 2^32 always fit, and smaller ranks do when a larger one does. */
  lemma SmallRankFits(vec: seq<nat>, r: nat, rs: seq<nat>)
    requires VecOk(vec) && |rs| < VEC_SIZE && r <= TWO_32
    ensures RankFits(vec, r, rs)
  {
    ProductBound(r, vec[|rs|], TWO_32, TWO_31 - 1);
  }

  lemma SmallerRankFits(vec: seq<nat>, r: nat, q: nat, rs: seq<nat>)
    requires VecOk(vec) && |rs| < VEC_SIZE && RankFits(vec, r, rs) && q <= r
    ensures RankFits(vec, q, rs)
  {
    MulLeft(q, r, vec[|rs|]);
  }

  /** Larger ranks can wrap: iteration 2^33 + 7 of the first loop of a program, whose root has a parent of
      rank 1 and rank 2 itself after the spawn that starts the loop, with the largest entries that `rand`
      gives. */
  lemma HashCanWrap(vec: seq<nat>)
    requires |vec| == VEC_SIZE && forall i :: 0 <= i < |vec| ==> vec[i] == TWO_31 - 1
    ensures Reduce(U64(Hash(vec, [2, 1]) + Weigh(0x2_0000_0008, vec[2]))) != Hash(vec, [0x2_0000_0008, 2, 1])
  {
    assert [0x2_0000_0008] + [2, 1] == [0x2_0000_0008, 2, 1];
    hide Reduce, U64, Hash;
    HashRank(vec, 0x2_0000_0008, [2, 1]);
  }

  /** Write the fields of a node that goes on top of the chain `above`. */
  method Fill(vec: seq<nat>, p: Pedigree, rank: nat, parent: Pedigree?, length: nat, actual: nat, ghost above: seq<Pedigree>)
    requires VecOk(vec) && |above| < VEC_SIZE && (above != [] ==> ChainOk(vec, above)) && p !in above
    requires parent == (if above == [] then null else above[0]) && length == |above| + 1
    requires actual == Hash(vec, [rank] + Ranks(above))
    modifies p
    ensures ChainOk(vec, [p] + above) && Ranks([p] + above) == [rank] + Ranks(above)
    ensures p.rank == rank && p.parent == parent && p.length == length && p.actual == actual
  {
    hide Hash, NodeOk;
    p.rank, p.parent, p.length, p.actual := rank, parent, length, actual;
    ChainPush(vec, p, above);
  }

  // ---------------------------------------------------------------- a worker's pedigree

  /** A leaf for iteration `low`, below the root of the loop. */
  method MakeLeaf(vec: seq<nat>, low: nat, root: Pedigree, ghost rootChain: seq<Pedigree>) returns (leaf: Pedigree)
    requires ChainOk(vec, rootChain) && rootChain[0] == root && |rootChain| < VEC_SIZE
    requires low + 1 < TWO_64 && RankFits(vec, low + 1, Ranks(rootChain))
    ensures fresh(leaf) && ChainOk(vec, [leaf] + rootChain) && Ranks([leaf] + rootChain) == [low + 1] + Ranks(rootChain)
  {
    hide Hash, Reduce, U64, NodeOk, ChainOk;
    ChainFacts(vec, rootChain);
    leaf := new Pedigree.Copy(root);
    HashRank(vec, low + 1, Ranks(rootChain));
    var length := root.length + 1;
    Fill(vec, leaf, low + 1, root, length, Reduce(U64(root.actual + Weigh(low + 1, vec[length - 1]))), rootChain);
  }

  /** A copy of the first node of a chain, for the frame of a spawn helper. */
  method MakeHelper(vec: seq<nat>, p: Pedigree, ghost chain: seq<Pedigree>) returns (helper: Pedigree)
    requires ChainOk(vec, chain) && chain[0] == p
    ensures fresh(helper) && ChainOk(vec, [helper] + chain[1..]) && Ranks([helper] + chain[1..]) == Ranks(chain)
  {
    hide Hash, Reduce, U64, NodeOk, ChainOk;
    ChainFacts(vec, chain);
    helper := new Pedigree.Copy(p);
    Fill(vec, helper, p.rank, p.parent, p.length, p.actual, chain[1..]);
  }

  /** One more in the rank of the first node of a chain. */
  method BumpNode(vec: seq<nat>, ped: Pedigree, ghost chain: seq<Pedigree>)
    requires ChainOk(vec, chain) && chain[0] == ped
    modifies ped
    ensures ChainOk(vec, chain) && Ranks(chain) == [old(ped.rank) + 1] + old(Ranks(chain))[1..]
  {
    hide Hash, Reduce, U64, NodeOk, ChainOk;
    ChainFacts(vec, chain);
    ghost var rest := chain[1..];
    HashIncrement(vec, ped.rank, Ranks(rest));
    var length := ped.length;
    Fill(vec, ped, ped.rank + 1, ped.parent, length, Reduce(U64(ped.actual + vec[length - 1])), rest);
    assert [ped] + rest == chain;
  }

  class Worker {
    const vec: seq<nat>
    const pedigree: Pedigree
    ghost var chain: seq<Pedigree>      // from the worker's own node to the root

    ghost predicate Valid()
      reads this, chain
    {
      chain != [] && chain[0] == pedigree && ChainOk(vec, chain)
    }

    /** The pedigree a program would read: ranks from the current strand to the root. */
    ghost function Read(): seq<nat>
      reads this, chain
    {
      Ranks(chain)
    }

    constructor (vec: seq<nat>)
      requires VecOk(vec)
      ensures Valid() && Read() == [1] && fresh(pedigree) && this.vec == vec
    {
      this.vec := vec;
      pedigree := new Pedigree.Root(vec);
      new;
      chain := [pedigree];
      assert Ranks(chain)[0..] == [1];
      assert Dot(vec, [1]) == vec[0] by { assert [1][1..] == []; }
      ReduceIsMod(vec[0]);
      assert NodeOk(vec, chain, 0);
    }

    /** `chain` is what the parent pointers lead to; what the nodes record may be anything. */
    ghost predicate Linked()
      reads this, chain
    {
      && VecOk(vec) && 0 < |chain| <= VEC_SIZE && chain[0] == pedigree
      && forall i :: 0 <= i < |chain| ==> chain[i].parent == if i + 1 < |chain| then chain[i + 1] else null
    }

    /** No rank is so large that adding its product to a hash would wrap; 2^32 is not. */
    ghost predicate ProductsFit()
      reads this, chain
    {
      forall i, j :: 0 <= i < |chain| && 0 <= j < |vec| ==> Weigh(chain[i].rank, vec[j]) + BIG_PRIME <= TWO_64
    }

    /** The nodes up to the recorded length know their depths. */
    ghost predicate DepthsRight(length: nat)
      reads this, chain
    {
      length <= |chain| && forall i :: 0 <= i < length ==> chain[i].length == length - i
    }

    /** The definition: sum the weighed ranks along the parents, and compare.  It accepts exactly the
        pedigrees whose nodes know their depth and whose hash is that of their ranks. */
    method ValidatePedigree() returns (ok: bool)
      requires Linked() && ProductsFit() && pedigree.length <= VEC_SIZE
      ensures ok <==> DepthsRight(pedigree.length) && pedigree.actual == Hash(vec, Read()[..pedigree.length])
      ensures Valid() ==> ok
    {
      hide Hash, Reduce, U64, Dot, Weigh, Rest, Ranks, Valid, ProductsFit;
      var current: Pedigree? := pedigree;
      var sum: nat := 0;
      var i := pedigree.length;
      ok := true;
      ghost var n, length := 0, pedigree.length;
      ghost var rs := if length <= |chain| then Read()[..length] else [];
      SumStart(vec, rs);
      while i > 0 && ok
        invariant n <= |chain| && n + i == length
        invariant forall k :: 0 <= k < n ==> chain[k].length == length - k
        invariant current == if n < |chain| then chain[n] else null
        invariant sum < BIG_PRIME && (length <= |chain| ==> Rest(vec, rs, n, sum) == Hash(vec, rs))
        invariant !ok ==> !DepthsRight(length)
        decreases i, ok
      {
        ok := current != null && current.length == i;
        if ok {
          LinkAt(n);
          if length <= |chain| { FitAt(n, i - 1); SumStep(vec, rs, n, sum); }
          var product := Weigh(current.rank, vec[i - 1]);
          sum := U64(sum + product) % BIG_PRIME;
          current := current.parent;
          i, n := i - 1, n + 1;
        }
      }
      if ok { SumEnd(vec, rs, sum); }
      ok := ok && pedigree.actual == sum;
      if Valid() {
        ValidFacts();
      }
    }

    lemma FitAt(i: nat, j: nat)
      requires ProductsFit() && i < |chain| && j < |vec|
      ensures Weigh(chain[i].rank, vec[j]) + BIG_PRIME <= TWO_64
    {
    }

    lemma LinkAt(n: nat)
      requires Linked() && n < |chain|
      ensures chain[n].parent == if n + 1 < |chain| then chain[n + 1] else null
    {
    }

    /** A valid pedigree is one that the check accepts. */
    lemma ValidFacts()
      requires Valid()
      ensures DepthsRight(pedigree.length) && pedigree.actual == Hash(vec, Read()[..pedigree.length])
    {
      ChainFacts(vec, chain);
      assert Read()[..|chain|] == Read();
      forall i | 0 <= i < |chain| ensures chain[i].length == |chain| - i {
        NodeAt(vec, chain, i);
      }
    }

    /** One more at the current depth. */
    method Increment()
      requires Valid()
      modifies pedigree
      ensures Valid() && chain == old(chain) && Read() == [old(pedigree.rank) + 1] + old(Read())[1..]
    {
      BumpNode(vec, pedigree, chain);
    }

    /** Passing a sync. */
    method UpdateAfterSync()
      requires Valid()
      modifies pedigree
      ensures Valid() && chain == old(chain) && Read() == [old(pedigree.rank) + 1] + old(Read())[1..]
    {
      Increment();
    }

    /** The worker starts a new strand, of rank 1, below `parent`. */
    method StartStrand(parent: Pedigree, ghost above: seq<Pedigree>)
      requires ChainOk(vec, above) && above[0] == parent && pedigree !in above && |above| < VEC_SIZE
      modifies this`chain, pedigree
      ensures Valid() && chain == [pedigree] + above && Read() == [1] + Ranks(above) && ChainOk(vec, above)
      ensures Ranks(above) == old(Ranks(above))
    {
      hide Hash, Reduce, U64, NodeOk, ChainOk;
      ChainFacts(vec, above);
      HashOne(vec, Ranks(above));
      var length := parent.length + 1;
      Fill(vec, pedigree, 1, parent, length, Reduce(U64(parent.actual + vec[length - 1])), above);
      chain := [pedigree] + above;
    }

    /** A spawn: the pedigree of the spawning strand is saved in the helper's frame and becomes the
        parent of a new, deeper strand of rank 1. */
    method Detach() returns (helper: Pedigree)
      requires Valid() && |chain| < VEC_SIZE
      modifies this`chain, pedigree
      ensures Valid() && fresh(helper) && Read() == [1] + old(Read()) && chain == [pedigree, helper] + old(chain)[1..]
      ensures ChainOk(vec, [helper] + old(chain)[1..]) && Ranks([helper] + old(chain)[1..]) == old(Read())
    {
      hide ChainOk, Hash, NodeOk, Ranks;
      ChainFacts(vec, chain);
      helper := MakeHelper(vec, pedigree, chain);
      StartStrand(helper, [helper] + chain[1..]);
      assert chain == [pedigree, helper] + old(chain)[1..];
    }

    /** The spawned strand returns, or a thief goes on with the continuation: the saved pedigree, one
        rank later. */
    method LeaveFrame(helper: Pedigree, ghost saved: seq<Pedigree>)
      requires VecOk(vec) && ChainOk(vec, saved) && saved[0] == helper && pedigree !in saved
      modifies this`chain, pedigree
      ensures Valid() && chain == [pedigree] + saved[1..] && Read() == [helper.rank + 1] + Ranks(saved)[1..]
    {
      hide Hash, Reduce, U64, NodeOk, ChainOk;
      ChainFacts(vec, saved);
      ghost var above := saved[1..];
      HashIncrement(vec, helper.rank, Ranks(above));
      var length := helper.length;
      Fill(vec, pedigree, helper.rank + 1, helper.parent, length, Reduce(U64(helper.actual + vec[length - 1])), above);
      chain := [pedigree] + above;
    }

    // ------------------------------------------------------------ loop bodies

    /** Entry to a part of a cilk_for that starts at iteration `low`: the chain is cut down to the
        loop's root, whatever recursion led here, with a leaf for the iteration on top of it. */
    method BeginBody(low: nat, root: Pedigree, ghost rootChain: seq<Pedigree>) returns (leaf: Pedigree)
      requires VecOk(vec) && ChainOk(vec, rootChain) && rootChain[0] == root && pedigree !in rootChain
      requires |rootChain| + 2 <= VEC_SIZE && low + 1 < TWO_64 && RankFits(vec, low + 1, Ranks(rootChain))
      modifies this`chain, pedigree
      ensures Valid() && fresh(leaf) && chain == [pedigree, leaf] + rootChain
      ensures Read() == [1, low + 1] + Ranks(rootChain)
    {
      leaf := MakeLeaf(vec, low, root, rootChain);
      hide ChainOk;
      StartStrand(leaf, [leaf] + rootChain);
      assert chain == [pedigree, leaf] + rootChain;
      assert [1] + ([low + 1] + Ranks(rootChain)) == [1, low + 1] + Ranks(rootChain);
    }

    lemma AboveFacts()
      requires Valid() && |chain| >= 2
      ensures chain == [pedigree] + chain[1..] && pedigree.parent == chain[1] && ChainOk(vec, chain[1..]) && pedigree !in chain[1..]
      ensures |chain| <= VEC_SIZE && |Read()| == |chain| && Ranks(chain[1..]) == Read()[1..]
    {
      hide Hash, NodeOk, ChainOk;
      ChainFacts(vec, chain);
    }

    /** From one iteration to the next: the leaf's rank goes up, the strand starts again at 1. */
    method BumpLoopRank()
      requires Valid() && |chain| >= 2
      modifies this`chain, pedigree, chain[1]
      ensures Valid() && chain == old(chain) && Read() == [1, old(chain[1].rank) + 1] + old(Read())[2..]
    {
      hide Hash, Reduce, U64, NodeOk, ChainOk, Valid, Read, Ranks;
      AboveFacts();
      var ped := pedigree.parent;
      ghost var above, rs := chain[1..], Read();
      NextStrand(ped, above);
      assert rs[1..][1..] == rs[2..];
    }

    method NextStrand(ped: Pedigree, ghost above: seq<Pedigree>)
      requires ChainOk(vec, above) && above[0] == ped && pedigree !in above && |above| < VEC_SIZE
      modifies this`chain, pedigree, ped
      ensures Valid() && chain == [pedigree] + above && Read() == [1, old(ped.rank) + 1] + old(Ranks(above))[1..]
    {
      hide NodeOk, ChainOk;
      BumpNode(vec, ped, above);
      ghost var rs := Ranks(above);
      StartStrand(ped, above);
      assert [1] + rs == [1, old(ped.rank) + 1] + old(Ranks(above))[1..];
    }

    /** Exit: back on the chain that was there before, at the rank the worker has now. */
    method EndBody(savedNext: Pedigree, ghost saved: seq<Pedigree>)
      requires VecOk(vec) && ChainOk(vec, saved) && saved[0] == savedNext && pedigree !in saved && |saved| < VEC_SIZE
      requires pedigree.rank < TWO_64 && RankFits(vec, pedigree.rank, Ranks(saved))
      modifies this`chain, pedigree
      ensures Valid() && chain == [pedigree] + saved && Read() == [old(pedigree.rank)] + Ranks(saved)
    {
      hide Hash, Reduce, U64, NodeOk, ChainOk;
      ChainFacts(vec, saved);
      HashRank(vec, pedigree.rank, Ranks(saved));
      var length := savedNext.length + 1;
      Fill(vec, pedigree, pedigree.rank, savedNext, length,
           Reduce(U64(savedNext.actual + Weigh(pedigree.rank, vec[length - 1]))), saved);
      chain := [pedigree] + saved;
    }

    /** After the loop: the root's pedigree, one rank later; the implicit sync adds another. */
    method EndLoop(root: Pedigree, ghost rootChain: seq<Pedigree>)
      requires VecOk(vec) && ChainOk(vec, rootChain) && rootChain[0] == root && pedigree !in rootChain
      modifies this`chain, pedigree
      ensures Valid() && chain == [pedigree] + rootChain[1..] && Read() == [root.rank + 1] + Ranks(rootChain)[1..]
    {
      hide Hash, Reduce, U64, NodeOk, ChainOk;
      ChainFacts(vec, rootChain);
      ghost var above := rootChain[1..];
      HashIncrement(vec, root.rank, Ranks(above));
      var length := root.length;
      Fill(vec, pedigree, root.rank + 1, root.parent, length, Reduce(U64(root.actual + vec[length - 1])), above);
      chain := [pedigree] + above;
    }
  }

  /** What the whole sum comes to when `sum` is that of the first `n` ranks. */
  ghost function Rest(vec: seq<nat>, rs: seq<nat>, n: nat, sum: nat): nat
    requires n <= |rs| <= |vec|
  {
    (sum + Dot(vec, rs[n..])) % BIG_PRIME
  }

  lemma SumStart(vec: seq<nat>, rs: seq<nat>)
    requires |rs| <= |vec|
    ensures Rest(vec, rs, 0, 0) == Hash(vec, rs)
  {
    assert rs[0..] == rs;
  }

  lemma SumEnd(vec: seq<nat>, rs: seq<nat>, sum: nat)
    requires |rs| <= |vec| && sum < BIG_PRIME
    ensures Rest(vec, rs, |rs|, sum) == sum
  {
    assert rs[|rs|..] == [];
  }

  lemma NodeAt(vec: seq<nat>, chain: seq<Pedigree>, n: nat)
    requires ChainOk(vec, chain) && n < |chain|
    ensures chain[n].length == |chain| - n && chain[n].parent == (if n + 1 < |chain| then chain[n + 1] else null)
  {
    assert NodeOk(vec, chain, n);
  }

  lemma SumStep(vec: seq<nat>, rs: seq<nat>, n: nat, sum: nat)
    requires VecOk(vec) && n < |rs| <= VEC_SIZE && sum < BIG_PRIME && Weigh(rs[n], vec[|rs| - n - 1]) + BIG_PRIME <= TWO_64
    ensures Rest(vec, rs, n + 1, U64(sum + Weigh(rs[n], vec[|rs| - n - 1])) % BIG_PRIME) == Rest(vec, rs, n, sum)
  {
    assert rs[n..] == [rs[n]] + rs[n + 1..];
    DotCons(vec, rs[n], rs[n + 1..]);
    SumArithmetic(sum, Weigh(rs[n], vec[|rs| - n - 1]), Dot(vec, rs[n + 1..]));
    hide U64, Dot;
  }

  lemma SumArithmetic(sum: nat, product: nat, d: nat)
    requires sum < BIG_PRIME && product + BIG_PRIME <= TWO_64
    ensures (U64(sum + product) % BIG_PRIME + d) % BIG_PRIME == (sum + (product + d)) % BIG_PRIME
  {
    ModAdd(sum + product, d, BIG_PRIME);
  }

  lemma WorkerFacts(w: Worker)
    requires w.Valid()
    ensures w.pedigree.actual == Hash(w.vec, w.Read()) && w.pedigree.length == |w.Read()|
  {
    ChainFacts(w.vec, w.chain);
  }
}
