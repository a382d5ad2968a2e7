/**
 cilk_for: the divide-and-conquer recursion over iterations, and the pedigrees the iterations
 see.  Spawned halves are run where they are spawned; which strand runs a piece does not matter
 for what the piece is or what it sees.
*/
module CilkFor {
  import opened Arithmetic
  import opened PedigreeHash

  // ---------------------------------------------------------------- grain size

  /** The grain of a loop of `count` iterations, with the sum computed in the `width` values of the
      count's type. */
  function GrainSize(req: int, count: nat, underPtool: bool, p: nat, width: nat): int
    requires p > 0 && width > 0
  {
    if req > 0 then req
    else if count < 1 || underPtool then 1
    else
      var n := ((count + 8 * p - 1) % width) / (8 * p);
      if n > 2048 then 2048 else n
  }

  /** The grain is at least 1, and never more than 2048 unless the user asked for it, exactly as long
      as the rounded-up count fits its type; otherwise it is 0. */
  lemma GrainPositiveExact(req: int, count: nat, underPtool: bool, p: nat, width: nat)
    requires p > 0 && 8 * p <= width && count < width
    ensures var g := GrainSize(req, count, underPtool, p, width);
      && (req > 0 ==> g == req) && (req <= 0 ==> 0 <= g <= 2048)
      && (g >= 1 <==> req > 0 || count < 1 || underPtool || count + 8 * p - 1 < width)
  {
    if req <= 0 && count >= 1 && !underPtool {
      RoundedUp(count, 8 * p, width);
    }
  }

  /** Rounding a count up to multiples of `d`, in the count's type. */
  lemma RoundedUp(count: nat, d: nat, width: nat)
    requires 0 < d <= width && 1 <= count < width
    ensures ((count + d - 1) % width) / d >= 1 <==> count + d - 1 < width
  {
    var x := count + d - 1;
    if x < width {
      SmallMod(x, width);
      QuotientPositive(x, d);
    } else {
      WrapOnce(x, width);
      QuotientZero(x - width, d);
    }
  }

  lemma SmallMod(x: nat, width: nat)
    requires x < width
    ensures x % width == x
  {
  }

  lemma WrapOnce(x: nat, width: nat)
    requires width > 0 && width <= x < 2 * width
    ensures x % width == x - width
  {
    ModShift(1, x - width, width);
  }

  lemma QuotientPositive(x: nat, d: nat)
    requires 0 < d <= x
    ensures x / d >= 1
  {
  }

  lemma QuotientZero(x: nat, d: nat)
    requires x < d
    ensures x / d == 0
  {
  }

  /** The least grain with which eight pieces for each of `p` workers cover the loop, but at most 2048. */
  ghost predicate LeastGrain(g: int, count: nat, p: nat) {
    1 <= g <= 2048 && (g - 1) * (8 * p) < count && (g < 2048 ==> g * (8 * p) >= count)
  }

  /** Without a request the grain is that one. */
  lemma GrainDivides(req: int, count: nat, p: nat, width: nat)
    requires p > 0 && req <= 0 && 1 <= count && count + 8 * p - 1 < width
    ensures LeastGrain(GrainSize(req, count, false, p, width), count, p)
  {
    var d := 8 * p;
    SmallMod(count + d - 1, width);
    CeilingBounds(count, d);
    QuotientPositive(count + d - 1, d);
    var n := (count + d - 1) / d;
    if n > 2048 {
      SmallerProduct(2047, n - 1, d);
    }
  }

  lemma SmallerProduct(a: nat, b: nat, d: nat)
    requires a <= b
    ensures a * d <= b * d
  {
  }

  lemma CeilingBounds(count: nat, d: nat)
    requires d > 0
    ensures var n := (count + d - 1) / d; n * d >= count && (n - 1) * d < count
  {
    var x := count + d - 1;
    var n, r := x / d, x % d;
    assert x == n * d + r;
    OneLess(n, d);
  }

  lemma OneLess(n: int, d: int)
    ensures (n - 1) * d == n * d - d
  {
  }

  // ---------------------------------------------------------------- the division of the loop

  datatype Range = Range(low: nat, high: nat)

  /** The pieces in serial order. */
  function Ranges(low: nat, high: nat, grain: int): seq<Range>
    requires low <= high && grain >= 1
    decreases high - low
  {
    var count := high - low;
    if count > grain then
      var mid := low + count / 2;
      Ranges(low, mid, grain) + Ranges(mid, high, grain)
    else [Range(low, high)]
  }

  /** Pieces that follow each other from `low` to `high` with none left out and none empty. */
  ghost predicate Tiles(rs: seq<Range>, low: nat, high: nat) {
    && rs != [] && rs[0].low == low && rs[|rs| - 1].high == high
    && (forall i :: 0 <= i < |rs| ==> rs[i].low < rs[i].high)
    && (forall i {:trigger rs[i].high} :: 0 <= i < |rs| - 1 ==> rs[i].high == rs[i + 1].low)
  }

  lemma TilesJoin(a: seq<Range>, b: seq<Range>, low: nat, mid: nat, high: nat)
    requires Tiles(a, low, mid) && Tiles(b, mid, high)
    ensures Tiles(a + b, low, high)
  {
  }

  /** All pieces are between `least` and `most` long. */
  ghost predicate Sized(rs: seq<Range>, least: int, most: int) {
    forall i :: 0 <= i < |rs| ==> least <= rs[i].high - rs[i].low <= most
  }

  lemma SizesJoin(a: seq<Range>, b: seq<Range>, least: int, most: int)
    requires Sized(a, least, most) && Sized(b, least, most)
    ensures Sized(a + b, least, most)
  {
  }

  lemma SizedWeaker(rs: seq<Range>, least: int, less: int, most: int)
    requires Sized(rs, least, most) && less <= least
    ensures Sized(rs, less, most)
  {
  }

  /** Halving something longer than the grain never leaves less than half a grain. */
  lemma HalfSizes(count: nat, grain: int)
    requires count > grain >= 1
    ensures (grain + 1) / 2 <= count / 2 <= count - count / 2
  {
  }

  /** For every count and grain: disjoint consecutive non-empty pieces covering the loop, none longer
      than the grain, and, when there are several, none shorter than half of it. */
  lemma {:induction false} RangesTile(low: nat, high: nat, grain: int)
    requires low < high && grain >= 1
    ensures Tiles(Ranges(low, high, grain), low, high)
    ensures Sized(Ranges(low, high, grain), if high - low > grain then (grain + 1) / 2 else high - low, grain)
    decreases high - low
  {
    var count := high - low;
    if count > grain {
      var mid := low + count / 2;
      var a, b := Ranges(low, mid, grain), Ranges(mid, high, grain);
      RangesTile(low, mid, grain);
      RangesTile(mid, high, grain);
      assert Ranges(low, high, grain) == a + b;
      hide Ranges, Tiles, Sized;
      HalfSizes(count, grain);
      SizedWeaker(a, if mid - low > grain then (grain + 1) / 2 else mid - low, (grain + 1) / 2, grain);
      SizedWeaker(b, if high - mid > grain then (grain + 1) / 2 else high - mid, (grain + 1) / 2, grain);
      TilesJoin(a, b, low, mid, high);
      SizesJoin(a, b, (grain + 1) / 2, grain);
    }
  }

  /** Every iteration is in a piece. */
  lemma {:induction false} TilesCover(rs: seq<Range>, low: nat, high: nat, k: nat)
    requires Tiles(rs, low, high) && low <= k < high
    ensures exists i :: 0 <= i < |rs| && rs[i].low <= k < rs[i].high
    decreases |rs|
  {
    if k < rs[0].high {
      assert rs[0].low <= k < rs[0].high;
    } else {
      var rest := rs[1..];
      assert rest != [] && Tiles(rest, rs[0].high, high);
      TilesCover(rest, rs[0].high, high, k);
      var i :| 0 <= i < |rest| && rest[i].low <= k < rest[i].high;
      assert rs[i + 1] == rest[i];
    }
  }

  /** And in only one. */
  lemma {:induction false} TilesDisjoint(rs: seq<Range>, low: nat, high: nat, i: nat, j: nat)
    requires Tiles(rs, low, high) && i < j < |rs|
    ensures rs[i].high <= rs[j].low
    decreases j
  {
    assert rs[j - 1].high == rs[j].low;
    if i < j - 1 {
      TilesDisjoint(rs, low, high, i, j - 1);
    }
  }

  /** How deep the spawns of the recursion nest. */
  function SpawnDepth(count: nat, grain: int): nat
    requires grain >= 1
  {
    if count > grain then
      var l, r := 1 + SpawnDepth(count / 2, grain), SpawnDepth(count - count / 2, grain);
      if l > r then l else r
    else 0
  }

  /** One turn of the recursion's loop: the left half is spawned, the right half is what is left. */
  lemma HalfStep(low: nat, high: nat, grain: int)
    requires grain >= 1 && low <= high && high - low > grain
    ensures var mid := low + (high - low) / 2;
      && low < mid < high && Ranges(low, high, grain) == Ranges(low, mid, grain) + Ranges(mid, high, grain)
      && 1 + SpawnDepth(mid - low, grain) <= SpawnDepth(high - low, grain)
      && SpawnDepth(high - mid, grain) <= SpawnDepth(high - low, grain)
  {
  }

  lemma Regroup(a: seq<Range>, b: seq<Range>, c: seq<Range>)
    ensures (a + b) + c == a + (b + c)
  {
  }

  lemma LastRange(low: nat, high: nat, grain: int)
    requires grain >= 1 && low <= high && high - low <= grain
    ensures Ranges(low, high, grain) == [Range(low, high)]
  {
  }

  /** Spawns nest no deeper than the count has binary digits. */
  lemma {:induction false} SpawnDepthBound(count: nat, grain: int, k: nat)
    requires grain >= 1 && count <= Pow2(k)
    ensures SpawnDepth(count, grain) <= k
    decreases k
  {
    if count > grain {
      SpawnDepthBound(count / 2, grain, k - 1);
      SpawnDepthBound(count - count / 2, grain, k - 1);
    }
  }

  lemma LoopDepthBound(count: nat, grain: int)
    requires grain >= 1 && count <= TWO_32
    ensures SpawnDepth(count, grain) <= 32
  {
    Pow2Of32();
    SpawnDepthBound(count, grain, 32);
  }

  // ---------------------------------------------------------------- programs

  /** What a strand does: syncs, spawns, and cilk_for loops, nested in any way.  An iteration of a loop
      runs its body and then bumps the loop's rank. */
  datatype Stmt = Sync | Spawn(child: Prog) | For(req: int, bodies: seq<Prog>)

  datatype Prog = Done | Then(first: Stmt, rest: Prog)

  /** What decides about the grain of a loop, besides the request. */
  datatype Machine = Machine(underPtool: bool, p: nat, width: nat)

  function Grain(m: Machine, req: int, count: nat): int {
    if m.p > 0 && m.width > 0 then GrainSize(req, count, m.underPtool, m.p, m.width) else 0
  }

  function Bumped(rs: seq<nat>, n: nat): (r: seq<nat>)
    requires rs != []
    ensures |r| == |rs| && r[1..] == rs[1..]
  {
    [rs[0] + n] + rs[1..]
  }

  /** The pedigree after a statement that began at `rs`, as the language defines it: a spawn and a sync
      count one each; a loop counts two, and its own sync, which follows it, one more. */
  function AfterStmt(st: Stmt, rs: seq<nat>): (r: seq<nat>)
    requires rs != []
    ensures |r| == |rs| && r[1..] == rs[1..]
  {
    match st
    case Sync => Bumped(rs, 1)
    case Spawn(_) => Bumped(rs, 1)
    case For(_, bodies) => if bodies == [] then rs else Bumped(rs, 2)
  }

  function After(prog: Prog, rs: seq<nat>): (r: seq<nat>)
    requires rs != []
    ensures |r| == |rs| && r[1..] == rs[1..]
    decreases prog
  {
    match prog
    case Done => rs
    case Then(st, rest) => After(rest, AfterStmt(st, rs))
  }

  /** A pedigree that a program reads, and the hash it gets with it. */
  datatype Point = Point(ranks: seq<nat>, hash: nat)

  ghost function At(vec: seq<nat>, rs: seq<nat>): Point {
    Point(rs, if |rs| <= |vec| then Hash(vec, rs) else 0)
  }

  /** All that a program reads when it looks before every statement and at the end of every strand: a
      spawned strand starts at rank 1 below its spawn; iteration `i` of a loop at rank 1 below `i + 1`
      below the loop, however the loop is divided. */
  ghost function Trace(vec: seq<nat>, prog: Prog, rs: seq<nat>): seq<Point>
    requires rs != []
    decreases prog, 0
  {
    match prog
    case Done => [At(vec, rs)]
    case Then(st, rest) => [At(vec, rs)] + TraceStmt(vec, st, rs) + Trace(vec, rest, AfterStmt(st, rs))
  }

  ghost function TraceStmt(vec: seq<nat>, st: Stmt, rs: seq<nat>): seq<Point>
    requires rs != []
    decreases st, |if st.For? then st.bodies else []| + 1
  {
    match st
    case Sync => []
    case Spawn(child) => Trace(vec, child, [1] + rs)
    case For(_, bodies) => TraceFor(vec, st, 0, |bodies|, Bumped(rs, 1))
  }

  /** Where iteration `i` of a loop starts. */
  function Start(i: nat, root: seq<nat>): seq<nat> {
    [1, i + 1] + root
  }

  ghost function TraceFor(vec: seq<nat>, loop: Stmt, low: nat, high: nat, root: seq<nat>): seq<Point>
    requires loop.For? && low <= high <= |loop.bodies|
    decreases loop, high
  {
    if low == high then []
    else TraceFor(vec, loop, low, high - 1, root) + Trace(vec, loop.bodies[high - 1], Start(high - 1, root))
  }

  lemma {:induction false} TraceJoin(vec: seq<nat>, loop: Stmt, low: nat, mid: nat, high: nat, root: seq<nat>)
    requires loop.For? && low <= mid <= high <= |loop.bodies|
    ensures TraceFor(vec, loop, low, mid, root) + TraceFor(vec, loop, mid, high, root) == TraceFor(vec, loop, low, high, root)
    decreases high
  {
    hide Trace;
    if mid < high {
      TraceJoin(vec, loop, low, mid, high - 1, root);
    } else {
      assert TraceFor(vec, loop, mid, high, root) == [];
    }
  }

  lemma TraceNone(vec: seq<nat>, loop: Stmt, low: nat, root: seq<nat>)
    requires loop.For? && low <= |loop.bodies|
    ensures TraceFor(vec, loop, low, low, root) == []
  {
  }

  lemma TraceOne(vec: seq<nat>, loop: Stmt, low: nat, i: nat, root: seq<nat>)
    requires loop.For? && low <= i < |loop.bodies|
    ensures TraceFor(vec, loop, low, i + 1, root) == TraceFor(vec, loop, low, i, root) + Trace(vec, loop.bodies[i], Start(i, root))
  {
    hide Trace;
  }

  // ---------------------------------------------------------------- pedigrees tell strands apart

  /** Read from the root down, `a` and `b` have their last `c` ranks in common, and then `a` ends or has
      the smaller rank. */
  ghost predicate EarlierAt(a: seq<nat>, b: seq<nat>, c: nat) {
    c <= |a| && c < |b| && a[|a| - c..] == b[|b| - c..] && (c == |a| || a[|a| - c - 1] < b[|b| - c - 1])
  }

  ghost predicate Earlier(a: seq<nat>, b: seq<nat>) {
    exists c: nat :: EarlierAt(a, b, c)
  }

  /** Every pedigree read is earlier than those read after it, and so different from them. */
  ghost predicate InOrder(t: seq<Point>) {
    forall i, j :: 0 <= i < j < |t| ==> Earlier(t[i].ranks, t[j].ranks)
  }

  /** Below `outer`, with a rank from `lo` to `hi` there. */
  ghost predicate Under(a: seq<nat>, outer: seq<nat>, lo: nat, hi: nat) {
    |a| > |outer| && a[|a| - |outer|..] == outer && lo <= a[|a| - |outer| - 1] <= hi
  }

  ghost predicate AllUnder(t: seq<Point>, outer: seq<nat>, lo: nat, hi: nat) {
    forall i :: 0 <= i < |t| ==> Under(t[i].ranks, outer, lo, hi)
  }

  /** A loop without iterations does not change the pedigree. */
  ghost predicate NoEmptyLoop(prog: Prog) {
    prog.Then? ==> StmtNotEmpty(prog.first) && NoEmptyLoop(prog.rest)
  }

  ghost predicate StmtNotEmpty(st: Stmt) {
    match st
    case Sync => true
    case Spawn(child) => NoEmptyLoop(child)
    case For(_, bodies) => bodies != [] && forall i :: 0 <= i < |bodies| ==> NoEmptyLoop(bodies[i])
  }

  lemma NotEarlierItself(a: seq<nat>)
    ensures !Earlier(a, a)
  {
  }

  lemma JoinOrder(a: seq<Point>, b: seq<Point>, outer: seq<nat>, lo: nat, m: nat, n: nat, hi: nat)
    requires InOrder(a) && InOrder(b) && AllUnder(a, outer, lo, m) && AllUnder(b, outer, n, hi) && lo <= m < n <= hi
    ensures InOrder(a + b) && AllUnder(a + b, outer, lo, hi)
  {
    var t := a + b;
    forall i, j | 0 <= i < |a| && 0 <= j < |b| ensures Earlier(a[i].ranks, b[j].ranks) {
      assert Under(a[i].ranks, outer, lo, m) && Under(b[j].ranks, outer, n, hi);
      assert EarlierAt(a[i].ranks, b[j].ranks, |outer|);
    }
    assert forall i :: 0 <= i < |t| ==> t[i] == if i < |a| then a[i] else b[i - |a|];
    hide Earlier;
  }

  /** What is under `[rank] + outer` is under `outer`, with that rank. */
  lemma UnderMore(t: seq<Point>, rs: seq<nat>, lo: nat, hi: nat)
    requires rs != [] && AllUnder(t, rs, lo, hi)
    ensures AllUnder(t, rs[1..], rs[0], rs[0])
  {
    forall i | 0 <= i < |t| ensures Under(t[i].ranks, rs[1..], rs[0], rs[0]) {
      var a := t[i].ranks;
      assert a[|a| - |rs|..][1..] == a[|a| - |rs| + 1..];
      assert a[|a| - |rs|] == a[|a| - |rs|..][0];
    }
  }

  lemma {:induction false} TraceInOrder(vec: seq<nat>, prog: Prog, rs: seq<nat>)
    requires rs != [] && NoEmptyLoop(prog)
    ensures InOrder(Trace(vec, prog, rs)) && rs[0] <= After(prog, rs)[0] && AllUnder(Trace(vec, prog, rs), rs[1..], rs[0], After(prog, rs)[0])
    decreases prog, 0
  {
    hide InOrder, AllUnder;
    OneInOrder(vec, rs);
    if prog.Then? {
      var after := AfterStmt(prog.first, rs);
      StmtInOrder(vec, prog.first, rs);
      TraceInOrder(vec, prog.rest, after);
      JoinOrder([At(vec, rs)] + TraceStmt(vec, prog.first, rs), Trace(vec, prog.rest, after), rs[1..], rs[0], after[0] - 1, after[0],
                After(prog, rs)[0]);
    }
  }

  lemma OneInOrder(vec: seq<nat>, rs: seq<nat>)
    requires rs != []
    ensures InOrder([At(vec, rs)]) && AllUnder([At(vec, rs)], rs[1..], rs[0], rs[0])
  {
  }

  /** The pedigree before a statement, and then those that it gives rise to. */
  lemma {:induction false} StmtInOrder(vec: seq<nat>, st: Stmt, rs: seq<nat>)
    requires rs != [] && StmtNotEmpty(st)
    ensures AfterStmt(st, rs)[0] > rs[0]
    ensures var t := [At(vec, rs)] + TraceStmt(vec, st, rs);
      InOrder(t) && AllUnder(t, rs[1..], rs[0], AfterStmt(st, rs)[0] - 1)
    decreases st, |if st.For? then st.bodies else []| + 1
  {
    hide InOrder, AllUnder;
    OneInOrder(vec, rs);
    match st
    case Sync => assert [At(vec, rs)] + [] == [At(vec, rs)];
    case Spawn(child) =>
      TraceInOrder(vec, child, [1] + rs);
      assert ([1] + rs)[1..] == rs;
      SpawnInOrder(vec, rs, Trace(vec, child, [1] + rs), After(child, [1] + rs)[0]);
    case For(_, bodies) =>
      var root := Bumped(rs, 1);
      LoopInOrder(vec, st, |bodies|, root);
      UnderMore(TraceFor(vec, st, 0, |bodies|, root), root, 1, |bodies|);
      JoinOrder([At(vec, rs)], TraceFor(vec, st, 0, |bodies|, root), rs[1..], rs[0], rs[0], rs[0] + 1, rs[0] + 1);
  }

  lemma SpawnInOrder(vec: seq<nat>, rs: seq<nat>, t: seq<Point>, hi: nat)
    requires rs != [] && InOrder(t) && AllUnder(t, rs, 1, hi)
    ensures InOrder([At(vec, rs)] + t) && AllUnder([At(vec, rs)] + t, rs[1..], rs[0], rs[0])
  {
    UnderMore(t, rs, 1, hi);
    forall i | 0 <= i < |t| ensures Earlier(rs, t[i].ranks) {
      assert Under(t[i].ranks, rs, 1, hi);
      assert rs[|rs| - |rs|..] == rs;
      assert EarlierAt(rs, t[i].ranks, |rs|);
    }
    hide Earlier;
    var all := [At(vec, rs)] + t;
    assert forall i :: 0 <= i < |all| ==> all[i] == if i == 0 then At(vec, rs) else t[i - 1];
    OneInOrder(vec, rs);
  }

  /** Iterations of a loop, in order. */
  lemma {:induction false} LoopInOrder(vec: seq<nat>, loop: Stmt, high: nat, root: seq<nat>)
    requires loop.For? && StmtNotEmpty(loop) && high <= |loop.bodies|
    ensures InOrder(TraceFor(vec, loop, 0, high, root)) && AllUnder(TraceFor(vec, loop, 0, high, root), root, 1, high)
    decreases loop, high
  {
    if high > 0 {
      hide InOrder, AllUnder;
      LoopInOrder(vec, loop, high - 1, root);
      var start, body := Start(high - 1, root), loop.bodies[high - 1];
      TraceInOrder(vec, body, start);
      var t := Trace(vec, body, start);
      assert start[1..] == [high] + root && start[1..][1..] == root;
      UnderMore(t, start[1..], start[0], After(body, start)[0]);
      LoopJoin(TraceFor(vec, loop, 0, high - 1, root), t, root, high);
    }
  }

  lemma LoopJoin(a: seq<Point>, b: seq<Point>, root: seq<nat>, high: nat)
    requires high > 0 && InOrder(a) && InOrder(b) && AllUnder(a, root, 1, high - 1) && AllUnder(b, root, high, high)
    ensures InOrder(a + b) && AllUnder(a + b, root, 1, high)
  {
    if high == 1 {
      assert a != [] ==> Under(a[0].ranks, root, 1, 0);
      assert a + b == b;
    } else {
      JoinOrder(a, b, root, 1, high - 1, high, high);
    }
  }

  /** A loop without iterations, wherever it is: what is read before it is read again after it. */
  lemma {:induction false} ReadTwice(vec: seq<nat>, prog: Prog, rs: seq<nat>) returns (i: nat)
    requires rs != [] && !NoEmptyLoop(prog)
    ensures i + 1 < |Trace(vec, prog, rs)| && Trace(vec, prog, rs)[i] == Trace(vec, prog, rs)[i + 1]
    decreases prog, 0
  {
    hide TraceStmt, AfterStmt, At, Bumped;
    var st, after := prog.first, AfterStmt(prog.first, rs);
    var here, rest := TraceStmt(vec, st, rs), Trace(vec, prog.rest, after);
    assert Trace(vec, prog, rs) == [At(vec, rs)] + here + rest;
    if st.For? && st.bodies == [] {
      i := 0;
      EmptyLoop(vec, st, rs);
      assert rest[0] == At(vec, rs);
    } else if !StmtNotEmpty(st) {
      i := StmtReadTwice(vec, st, rs);
      i := i + 1;
    } else {
      i := ReadTwice(vec, prog.rest, after);
      i := i + 1 + |here|;
    }
  }

  lemma EmptyLoop(vec: seq<nat>, st: Stmt, rs: seq<nat>)
    requires rs != [] && st.For? && st.bodies == []
    ensures TraceStmt(vec, st, rs) == [] && AfterStmt(st, rs) == rs
  {
    TraceNone(vec, st, 0, Bumped(rs, 1));
  }

  lemma {:induction false} StmtReadTwice(vec: seq<nat>, st: Stmt, rs: seq<nat>) returns (i: nat)
    requires rs != [] && !StmtNotEmpty(st) && !(st.For? && st.bodies == [])
    ensures i + 1 < |TraceStmt(vec, st, rs)| && TraceStmt(vec, st, rs)[i] == TraceStmt(vec, st, rs)[i + 1]
    decreases st, 0
  {
    if st.Spawn? {
      i := ReadTwice(vec, st.child, [1] + rs);
    } else {
      var k :| 0 <= k < |st.bodies| && !NoEmptyLoop(st.bodies[k]);
      var root := Bumped(rs, 1);
      i := ReadTwice(vec, st.bodies[k], Start(k, root));
      TraceOne(vec, st, 0, k, root);
      TraceJoin(vec, st, 0, k + 1, |st.bodies|, root);
      var before, body, later := TraceFor(vec, st, 0, k, root), Trace(vec, st.bodies[k], Start(k, root)), TraceFor(vec, st, k + 1, |st.bodies|, root);
      assert TraceStmt(vec, st, rs) == before + body + later;
      i := i + |before|;
    }
  }

  /** A program reads each pedigree once, and later ones later, exactly when none of its loops is without
      iterations. */
  lemma PedigreesDiffer(vec: seq<nat>, prog: Prog, rs: seq<nat>)
    requires rs != []
    ensures NoEmptyLoop(prog) <==> InOrder(Trace(vec, prog, rs))
    ensures NoEmptyLoop(prog) <==>
      forall i, j :: 0 <= i < j < |Trace(vec, prog, rs)| ==> Trace(vec, prog, rs)[i].ranks != Trace(vec, prog, rs)[j].ranks
  {
    hide Trace, NoEmptyLoop;
    if NoEmptyLoop(prog) {
      TraceInOrder(vec, prog, rs);
    } else {
      var i := ReadTwice(vec, prog, rs);
    }
    forall a: seq<nat> ensures !Earlier(a, a) {
      NotEarlierItself(a);
    }
  }

  /** What the runtime can hold: as many levels as the vector has entries, no rank of an iteration that
      wraps the hash, and a grain. */
  ghost predicate Runs(vec: seq<nat>, m: Machine, prog: Prog, rs: seq<nat>)
    requires rs != []
    decreases prog
  {
    prog.Then? ==> RunsStmt(vec, m, prog.first, rs) && Runs(vec, m, prog.rest, AfterStmt(prog.first, rs))
  }

  ghost predicate RunsStmt(vec: seq<nat>, m: Machine, st: Stmt, rs: seq<nat>)
    requires rs != []
    decreases st
  {
    match st
    case Sync => true
    case Spawn(child) => |rs| < VEC_SIZE && Runs(vec, m, child, [1] + rs)
    case For(req, bodies) => bodies != [] ==> LoopRuns(vec, m, st, Bumped(rs, 1))
  }

  ghost predicate LoopRuns(vec: seq<nat>, m: Machine, loop: Stmt, root: seq<nat>)
    requires loop.For?
    decreases loop, 0
  {
    var count, g := |loop.bodies|, Grain(m, loop.req, |loop.bodies|);
    && 2 <= |root| && |root| + 2 <= VEC_SIZE == |vec| && g >= 1 && |root| + SpawnDepth(count, g) <= VEC_SIZE
    && 0 < count < TWO_64 && RankFits(vec, count, root)
    && forall i :: 0 <= i < count ==> Runs(vec, m, loop.bodies[i], Start(i, root))
  }

  // ---------------------------------------------------------------- the code

  /** The pedigree without the rank of the current strand. */
  ghost function Outer(w: Worker): seq<nat>
    requires w.chain != []
    reads w, w.chain
  {
    w.Read()[1..]
  }

  lemma OuterIs(w: Worker, rs: seq<nat>)
    requires w.chain != [] && w.Read() == rs && rs != []
    ensures Outer(w) == rs[1..]
  {
  }

  lemma FirstOf(w: Worker)
    requires w.Valid()
    ensures w.Read() != [] && w.Read()[0] == w.pedigree.rank
  {
  }

  lemma PointOf(w: Worker)
    requires w.Valid()
    ensures Point(w.Read(), w.pedigree.actual) == At(w.vec, w.Read()) && w.Read() != [] && |w.Read()| == |w.chain|
  {
    WorkerFacts(w);
  }

  /** Any program, from any valid pedigree: whenever it looks it reads the pedigree the language defines,
      with the right hash, and in the end its worker is back on the chain it began with. */
  method RunProg(w: Worker, prog: Prog, m: Machine) returns (ghost seen: seq<Point>)
    requires w.Valid() && Runs(w.vec, m, prog, w.Read())
    modifies w`chain, w.pedigree
    ensures w.Valid() && w.chain == old(w.chain) && w.Read() == old(After(prog, w.Read()))
    ensures seen == old(Trace(w.vec, prog, w.Read()))
    decreases prog, 9, 0, 0
  {
    hide Worker.Valid, Worker.Read, RunsStmt, AfterStmt, TraceStmt, At;
    PointOf(w);
    seen := [Point(w.Read(), w.pedigree.actual)];
    if prog.Then? {
      ghost var first := RunStmt(w, prog.first, m);
      ghost var rest := RunProg(w, prog.rest, m);
      seen := seen + first + rest;
    }
  }

  method RunStmt(w: Worker, st: Stmt, m: Machine) returns (ghost seen: seq<Point>)
    requires w.Valid() && w.chain != [] && w.Read() != [] && RunsStmt(w.vec, m, st, w.Read())
    modifies w`chain, w.pedigree
    ensures w.Valid() && w.chain == old(w.chain) && w.Read() == old(AfterStmt(st, w.Read()))
    ensures seen == old(TraceStmt(w.vec, st, w.Read()))
    decreases st, 8, 0, 0
  {
    hide Worker.Valid, Runs, Trace, LoopRuns, TraceFor;
    match st
    case Sync =>
      FirstOf(w);
      w.UpdateAfterSync();
      seen := [];
    case Spawn(child) => seen := RunSpawn(w, child, m);
    case For(req, bodies) =>
      seen := [];
      if bodies != [] {
        ghost var ranges;
        ranges, seen := CilkForRoot(w, st, m);
      } else {
        TraceNone(w.vec, st, 0, Bumped(w.Read(), 1));
      }
  }

  /** Into a spawned strand; `saved` is the chain to come back to. */
  method Leave(w: Worker) returns (helper: Pedigree, ghost saved: seq<Pedigree>)
    requires w.Valid() && |w.chain| < VEC_SIZE
    modifies w`chain, w.pedigree
    ensures w.Valid() && fresh(helper) && |w.chain| == old(|w.chain|) + 1 && w.Read() == [1] + old(w.Read())
    ensures VecOk(w.vec) && ChainOk(w.vec, saved) && saved[0] == helper && w.pedigree !in saved
    ensures Ranks(saved) == old(w.Read()) && [w.pedigree] + saved[1..] == old(w.chain)
  {
    hide ChainOk;
    ghost var above, old_ := w.chain[1..], w.chain;
    ChainFacts(w.vec, w.chain);
    assert [w.pedigree] + above == old_;
    hide Worker.Valid, Worker.Read;
    helper := w.Detach();
    saved := [helper] + above;
    assert saved[1..] == above;
  }

  /** A spawn and, in serial order, the whole spawned strand and its return. */
  method RunSpawn(w: Worker, child: Prog, m: Machine) returns (ghost seen: seq<Point>)
    requires w.Valid() && |w.chain| < VEC_SIZE && Runs(w.vec, m, child, [1] + w.Read())
    modifies w`chain, w.pedigree
    ensures w.Valid() && w.chain == old(w.chain) && w.Read() != [] && old(w.Read()) != [] && w.Read() == old(Bumped(w.Read(), 1))
    ensures seen == old(Trace(w.vec, child, [1] + w.Read()))
    decreases child, 10, 0, 0
  {
    hide ChainOk, Runs, Trace, After;
    ghost var old_, rs := w.chain, w.Read();
    hide Worker.Valid, Worker.Read, Ranks;
    var helper;
    ghost var saved;
    helper, saved := Leave(w);
    seen := RunProg(w, child, m);
    ReturnTo(w, helper, saved, rs);
  }

  method ReturnTo(w: Worker, helper: Pedigree, ghost saved: seq<Pedigree>, ghost rs: seq<nat>)
    requires VecOk(w.vec) && ChainOk(w.vec, saved) && saved[0] == helper && w.pedigree !in saved && Ranks(saved) == rs
    modifies w`chain, w.pedigree
    ensures w.Valid() && w.chain == [w.pedigree] + saved[1..] && rs != [] && w.Read() == Bumped(rs, 1) && Outer(w) == rs[1..]
  {
    hide ChainOk, Worker.Valid, Worker.Read;
    ChainFacts(w.vec, saved);
    assert helper.rank == Ranks(saved)[0];
    w.LeaveFrame(helper, saved);
    OuterIs(w, w.Read());
  }

  /** The body on the iterations of one piece. */
  method CallCilkForLoopBody(low: nat, high: nat, w: Worker, root: Pedigree, loop: Stmt, m: Machine, ghost rootChain: seq<Pedigree>)
      returns (ghost seen: seq<Point>)
    requires w.Valid() && |w.chain| >= 2 && loop.For? && low < high <= |loop.bodies|
    requires RootOk(w, root, rootChain) && LoopRuns(w.vec, m, loop, Ranks(rootChain))
    modifies w`chain, w.pedigree
    ensures w.Valid() && w.chain == old(w.chain) && Outer(w) == old(Outer(w))
    ensures seen == TraceFor(w.vec, loop, low, high, old(Ranks(rootChain)))
    decreases loop, 4, 0, 0
  {
    hide ChainOk, NodeOk, Hash, LoopRuns, TraceFor;
    ChainFacts(w.vec, w.chain);
    ghost var saved := w.chain[1..];
    var savedNext := w.pedigree.parent;
    LoopFacts(w.vec, m, loop, Ranks(rootChain), low);
    var leaf := w.BeginBody(low, root, rootChain);
    seen := Iterations(low, high, w, leaf, loop, m, rootChain, saved);
    SmallRankFits(w.vec, w.pedigree.rank, Ranks(saved));
    w.EndBody(savedNext, saved);
  }

  /** The loop's root: a copy of the pedigree at the loop, which no iteration changes. */
  ghost predicate RootOk(w: Worker, root: Pedigree, rootChain: seq<Pedigree>)
    reads rootChain
  {
    ChainOk(w.vec, rootChain) && rootChain[0] == root && w.pedigree !in rootChain
  }

  lemma LoopFacts(vec: seq<nat>, m: Machine, loop: Stmt, root: seq<nat>, i: nat)
    requires loop.For? && LoopRuns(vec, m, loop, root) && VecOk(vec) && i < |loop.bodies|
    ensures |root| + 2 <= VEC_SIZE && i + 1 < TWO_64 && RankFits(vec, i + 1, root) && Runs(vec, m, loop.bodies[i], Start(i, root))
  {
    hide RankFits, Runs;
    SmallerRankFits(vec, |loop.bodies|, i + 1, root);
  }

  /** The iterations of a piece; `kept` is a chain that they must not disturb. */
  method Iterations(low: nat, high: nat, w: Worker, leaf: Pedigree, loop: Stmt, m: Machine, ghost rootChain: seq<Pedigree>, ghost kept: seq<Pedigree>)
      returns (ghost seen: seq<Point>)
    requires w.Valid() && loop.For? && low < high <= |loop.bodies| && LoopRuns(w.vec, m, loop, Ranks(rootChain))
    requires w.chain == [w.pedigree, leaf] + rootChain && w.Read() == Start(low, Ranks(rootChain))
    requires ChainOk(w.vec, kept) && w.pedigree !in kept && leaf !in kept && w.pedigree !in rootChain && leaf !in rootChain
    modifies w`chain, w.pedigree, leaf
    ensures w.Valid() && w.pedigree.rank == 1 && seen == TraceFor(w.vec, loop, low, high, old(Ranks(rootChain)))
    ensures ChainOk(w.vec, kept) && Ranks(kept) == old(Ranks(kept))
    decreases loop, 3, 0, 0
  {
    hide ChainOk, TraceFor, Trace, LoopRuns, Runs, Worker.Valid, Worker.Read, Start;
    ghost var rr := Ranks(rootChain);
    var i := low;
    seen := [];
    TraceNone(w.vec, loop, low, rr);
    while i < high
      invariant low <= i <= high && seen == TraceFor(w.vec, loop, low, i, rr)
      invariant w.Valid() && w.chain == [w.pedigree, leaf] + rootChain && w.Read() == Start(i, rr)
      invariant ChainOk(w.vec, kept) && Ranks(kept) == old(Ranks(kept))
    {
      TraceOne(w.vec, loop, low, i, rr);
      LoopFacts2(w, m, loop, rr, i);
      ghost var part := NextIteration(w, leaf, loop, i, m, rr);
      seen := seen + part;
      i := i + 1;
    }
    FirstRank(w, rr, high);
  }

  lemma LoopFacts2(w: Worker, m: Machine, loop: Stmt, root: seq<nat>, i: nat)
    requires w.Valid() && loop.For? && LoopRuns(w.vec, m, loop, root) && i < |loop.bodies|
    ensures Runs(w.vec, m, loop.bodies[i], Start(i, root))
  {
    hide Runs, RankFits;
  }

  lemma FirstRank(w: Worker, rr: seq<nat>, i: nat)
    requires w.Valid() && w.Read() == Start(i, rr)
    ensures w.pedigree.rank == 1
  {
    FirstOf(w);
  }

  /** One iteration: whatever the body does, the next one starts at rank 1 below the next number. */
  method NextIteration(w: Worker, leaf: Pedigree, loop: Stmt, i: nat, m: Machine, ghost rr: seq<nat>) returns (ghost seen: seq<Point>)
    requires w.Valid() && |w.chain| >= 2 && w.chain[1] == leaf && w.Read() == Start(i, rr) && loop.For? && i < |loop.bodies|
    requires Runs(w.vec, m, loop.bodies[i], Start(i, rr))
    modifies w`chain, w.pedigree, leaf
    ensures w.Valid() && w.chain == old(w.chain) && w.Read() == Start(i + 1, rr)
    ensures seen == Trace(w.vec, loop.bodies[i], Start(i, rr))
    decreases loop, 2, 0, 0
  {
    hide ChainOk, Worker.Valid, Runs, Trace, After;
    seen := RunProg(w, loop.bodies[i], m);
    assert Start(i, rr)[1..] == [i + 1] + rr;
    SecondRank(w, leaf);
    hide Worker.Read, Outer;
    w.BumpLoopRank();
    assert ([i + 1] + rr)[1..] == rr;
  }

  lemma SecondRank(w: Worker, leaf: Pedigree)
    requires |w.chain| >= 2 && w.chain[1] == leaf
    ensures |w.Read()| == |w.chain| && leaf.rank == w.Read()[1] && w.Read()[2..] == w.Read()[1..][1..]
  {
  }

  /** Spawn the left half, go on with the right one, until what is left is no more than the grain. */
  method CilkForRecursive(low0: nat, high: nat, w: Worker, root: Pedigree, grain: int, loop: Stmt, m: Machine, ghost rootChain: seq<Pedigree>)
      returns (ranges: seq<Range>, ghost seen: seq<Point>)
    requires w.Valid() && |w.chain| >= 2 && loop.For? && low0 < high <= |loop.bodies| && grain >= 1
    requires |w.chain| + SpawnDepth(high - low0, grain) <= VEC_SIZE
    requires RootOk(w, root, rootChain) && LoopRuns(w.vec, m, loop, Ranks(rootChain))
    modifies w`chain, w.pedigree
    ensures w.Valid() && w.chain == old(w.chain) && Outer(w) == old(Outer(w))
    ensures ranges == Ranges(low0, high, grain)
    ensures seen == TraceFor(w.vec, loop, low0, high, old(Ranks(rootChain)))
    decreases loop, 5, high - low0, 2
  {
    hide ChainOk, LoopRuns, TraceFor, Ranges, SpawnDepth, Worker.Valid, Worker.Read, Outer, Ranks;
    ghost var rr := Ranks(rootChain);
    var low;
    low, ranges, seen := SpawnHalves(low0, high, w, root, grain, loop, m, rootChain);
    ghost var part := CallCilkForLoopBody(low, high, w, root, loop, m, rootChain);
    TraceJoin(w.vec, loop, low0, low, high, rr);
    LastRange(low, high, grain);
    ranges, seen := ranges + [Range(low, high)], seen + part;
  }

  /** The loop of the recursion: `low` moves up past every half that is spawned. */
  method SpawnHalves(low0: nat, high: nat, w: Worker, root: Pedigree, grain: int, loop: Stmt, m: Machine, ghost rootChain: seq<Pedigree>)
      returns (low: nat, ranges: seq<Range>, ghost seen: seq<Point>)
    requires w.Valid() && |w.chain| >= 2 && loop.For? && low0 < high <= |loop.bodies| && grain >= 1
    requires |w.chain| + SpawnDepth(high - low0, grain) <= VEC_SIZE
    requires RootOk(w, root, rootChain) && LoopRuns(w.vec, m, loop, Ranks(rootChain))
    modifies w`chain, w.pedigree
    ensures w.Valid() && w.chain == old(w.chain) && Outer(w) == old(Outer(w))
    ensures low0 <= low < high && high - low <= grain
    ensures ranges + Ranges(low, high, grain) == Ranges(low0, high, grain)
    ensures seen == TraceFor(w.vec, loop, low0, low, old(Ranks(rootChain)))
    decreases loop, 5, high - low0, 1
  {
    hide ChainOk, LoopRuns, TraceFor, Ranges, SpawnDepth, Worker.Valid, Worker.Read, Outer, Ranks;
    ghost var rr := Ranks(rootChain);
    low, ranges, seen := low0, [], [];
    TraceNone(w.vec, loop, low, rr);
    while high - low > grain
      invariant low0 <= low < high && w.Valid() && w.chain == old(w.chain) && Outer(w) == old(Outer(w))
      invariant |w.chain| + SpawnDepth(high - low, grain) <= VEC_SIZE
      invariant ranges + Ranges(low, high, grain) == Ranges(low0, high, grain)
      invariant seen == TraceFor(w.vec, loop, low0, low, rr)
      decreases high - low
    {
      HalfStep(low, high, grain);
      var mid := low + (high - low) / 2;
      var part;
      ghost var partSeen;
      part, partSeen := SpawnHalf(low, mid, w, root, grain, loop, m, rootChain);
      TraceJoin(w.vec, loop, low0, low, mid, rr);
      Regroup(ranges, part, Ranges(mid, high, grain));
      low, ranges, seen := mid, ranges + part, seen + partSeen;
    }
  }

  method SpawnHalf(low: nat, mid: nat, w: Worker, root: Pedigree, grain: int, loop: Stmt, m: Machine, ghost rootChain: seq<Pedigree>)
      returns (ranges: seq<Range>, ghost seen: seq<Point>)
    requires w.Valid() && |w.chain| >= 2 && loop.For? && low < mid <= |loop.bodies| && grain >= 1
    requires 1 + |w.chain| + SpawnDepth(mid - low, grain) <= VEC_SIZE
    requires RootOk(w, root, rootChain) && LoopRuns(w.vec, m, loop, Ranks(rootChain))
    modifies w`chain, w.pedigree
    ensures w.Valid() && w.chain == old(w.chain) && Outer(w) == old(Outer(w))
    ensures ranges == Ranges(low, mid, grain)
    ensures seen == TraceFor(w.vec, loop, low, mid, old(Ranks(rootChain)))
    decreases loop, 5, mid - low, 3
  {
    hide ChainOk, LoopRuns, TraceFor, Ranges, SpawnDepth;
    ghost var old_, rs := w.chain, w.Read();
    OuterIs(w, rs);
    hide Worker.Valid, Worker.Read, Outer, Ranks;
    var helper;
    ghost var saved;
    helper, saved := Leave(w);
    ranges, seen := CilkForRecursive(low, mid, w, root, grain, loop, m, rootChain);
    ReturnTo(w, helper, saved, rs);
  }

  /** The spawn that starts the loop; its return adds one to the rank. */
  method SpawnNoop(w: Worker)
    requires w.Valid() && |w.chain| < VEC_SIZE
    modifies w`chain, w.pedigree
    ensures w.Valid() && w.chain == old(w.chain) && old(w.Read()) != [] && w.Read() == old(Bumped(w.Read(), 1))
  {
    hide ChainOk, Worker.Valid, Worker.Read, Ranks;
    ghost var rs := w.Read();
    var helper;
    ghost var saved;
    helper, saved := Leave(w);
    ReturnTo(w, helper, saved, rs);
  }

  method LeaveLoop(w: Worker, root: Pedigree, ghost rootChain: seq<Pedigree>, ghost rs: seq<nat>)
    requires VecOk(w.vec) && ChainOk(w.vec, rootChain) && rootChain[0] == root && w.pedigree !in rootChain && Ranks(rootChain) == rs
    modifies w`chain, w.pedigree
    ensures w.Valid() && w.chain == [w.pedigree] + rootChain[1..] && rs != [] && w.Read() == Bumped(rs, 1)
  {
    hide ChainOk, Worker.Valid;
    ChainFacts(w.vec, rootChain);
    w.EndLoop(root, rootChain);
    assert Ranks(rootChain) == rs && root.rank == rs[0];
  }

  /** The pieces of a loop: consecutive, none longer than `g`, and none shorter than half of it if there
      are several. */
  ghost predicate Pieces(rs: seq<Range>, count: nat, g: int) {
    && Tiles(rs, 0, count)
    && (forall i :: 0 <= i < |rs| ==> rs[i].high - rs[i].low <= g)
    && (|rs| > 1 ==> forall i :: 0 <= i < |rs| ==> 2 * (rs[i].high - rs[i].low) >= g)
  }

  /** What a program gets that asks for a grain or does not: pieces of the grain requested; single
      iterations under a tool; or pieces of the least grain, if the count is one of its type. */
  ghost predicate DividedAsAsked(rs: seq<Range>, count: nat, req: int, m: Machine) {
    && (req > 0 ==> Pieces(rs, count, req))
    && (req <= 0 && m.underPtool ==> Tiles(rs, 0, count) && forall i :: 0 <= i < |rs| ==> rs[i].high == rs[i].low + 1)
    && (req <= 0 && !m.underPtool && 8 * m.p <= m.width && count < m.width ==>
          exists g :: LeastGrain(g, count, m.p) && Pieces(rs, count, g))
  }

  lemma PiecesOfGrain(count: nat, g: int)
    requires count > 0 && g >= 1
    ensures Pieces(Ranges(0, count, g), count, g)
  {
    RangesTile(0, count, g);
  }

  lemma DivisionIsAsAsked(count: nat, req: int, m: Machine)
    requires count > 0 && Grain(m, req, count) >= 1
    ensures DividedAsAsked(Ranges(0, count, Grain(m, req, count)), count, req, m)
  {
    var g := Grain(m, req, count);
    PiecesOfGrain(count, g);
    hide Ranges, Tiles;
    if req <= 0 && !m.underPtool && 8 * m.p <= m.width && count < m.width {
      GrainPositiveExact(req, count, false, m.p, m.width);
      GrainDivides(req, count, m.p, m.width);
      assert LeastGrain(g, count, m.p);
    }
    if req <= 0 && m.underPtool {
      SinglePieces(Ranges(0, count, g), count);
    }
  }

  lemma SinglePieces(rs: seq<Range>, count: nat)
    requires Pieces(rs, count, 1)
    ensures Tiles(rs, 0, count) && forall i :: 0 <= i < |rs| ==> rs[i].high == rs[i].low + 1
  {
  }

  /** A whole loop with at least one iteration.  Afterwards the worker is two ranks further, before the
      implicit sync. */
  method CilkForRoot(w: Worker, loop: Stmt, m: Machine) returns (ranges: seq<Range>, ghost seen: seq<Point>)
    requires w.Valid() && loop.For? && w.Read() != [] && LoopRuns(w.vec, m, loop, Bumped(w.Read(), 1))
    modifies w`chain, w.pedigree
    ensures w.Valid() && w.chain == old(w.chain) && w.Read() == old(Bumped(w.Read(), 2))
    ensures DividedAsAsked(ranges, |loop.bodies|, loop.req, m)
    ensures seen == old(TraceFor(w.vec, loop, 0, |loop.bodies|, Bumped(w.Read(), 1)))
    decreases loop, 7, 0, 0
  {
    hide Worker.Valid, Worker.Read, TraceFor, Ranges, LoopRuns;
    LoopDepth(w, m, loop);
    ghost var rs := w.Read();
    SpawnNoop(w);
    hide DividedAsAsked, Grain;
    ranges, seen := CilkForSpread(w, loop, m);
    DivisionIsAsAsked(|loop.bodies|, loop.req, m);
    assert Bumped(Bumped(rs, 1), 1) == Bumped(rs, 2);
  }

  lemma LoopDepth(w: Worker, m: Machine, loop: Stmt)
    requires w.Valid() && loop.For? && w.Read() != [] && LoopRuns(w.vec, m, loop, Bumped(w.Read(), 1))
    ensures 2 <= |w.chain| < VEC_SIZE && |loop.bodies| > 0 && Grain(m, loop.req, |loop.bodies|) >= 1
  {
    hide Runs, RankFits, SpawnDepth;
  }

  method CilkForSpread(w: Worker, loop: Stmt, m: Machine) returns (ranges: seq<Range>, ghost seen: seq<Point>)
    requires w.Valid() && loop.For? && LoopRuns(w.vec, m, loop, w.Read())
    modifies w`chain, w.pedigree
    ensures w.Valid() && w.chain == old(w.chain) && w.Read() != [] && old(w.Read()) != [] && w.Read() == old(Bumped(w.Read(), 1))
    ensures ranges == Ranges(0, |loop.bodies|, Grain(m, loop.req, |loop.bodies|))
    ensures seen == old(TraceFor(w.vec, loop, 0, |loop.bodies|, w.Read()))
    decreases loop, 6, 0, 0
  {
    hide ChainOk, TraceFor, Ranges, SpawnDepth, Runs, RankFits, Ranks;
    ghost var rs, old_ := w.Read(), w.chain;
    var root;
    ghost var rootChain;
    root, rootChain := CopyRoot(w);
    SpreadFacts(w, loop, m);
    hide Worker.Valid, Worker.Read, LoopRuns, Grain;
    ranges, seen := CilkForRecursive(0, |loop.bodies|, w, root, Grain(m, loop.req, |loop.bodies|), loop, m, rootChain);
    LeaveLoop(w, root, rootChain, rs);
  }

  method CopyRoot(w: Worker) returns (root: Pedigree, ghost rootChain: seq<Pedigree>)
    requires w.Valid()
    ensures VecOk(w.vec) && RootOk(w, root, rootChain) && fresh(root) && Ranks(rootChain) == w.Read()
    ensures [w.pedigree] + rootChain[1..] == w.chain
  {
    hide ChainOk;
    ChainFacts(w.vec, w.chain);
    root := MakeHelper(w.vec, w.pedigree, w.chain);
    rootChain := [root] + w.chain[1..];
    assert rootChain[1..] == w.chain[1..];
  }

  lemma SpreadFacts(w: Worker, loop: Stmt, m: Machine)
    requires w.Valid() && loop.For? && LoopRuns(w.vec, m, loop, w.Read())
    ensures var g := Grain(m, loop.req, |loop.bodies|);
      |w.chain| >= 2 && |loop.bodies| > 0 && g >= 1 && |w.chain| + SpawnDepth(|loop.bodies|, g) <= VEC_SIZE && w.Read() != []
  {
    hide Runs, RankFits;
  }
}
