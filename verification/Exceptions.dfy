/**
 Pending exceptions: when strands join, the exception record of the right one is merged into that
 of the left one, which is logically earlier.
*/
module Exceptions {
  import opened Wrappers

  /** An exception record: the active exception, whether the most recently caught one is to be
      rethrown, the caught ones (most recent first), and how many are uncaught. */
  datatype Record = Record(active: Option<nat>, rethrow: bool, caught: seq<nat>, uncaught: nat)

  const UINT_MAX_1: nat := 0x1_0000_0000

  predicate Empty(r: Record) {
    r.active == None && !r.rethrow && r.caught == [] && r.uncaught == 0
  }

  function HasActive(r: Record): nat {
    if r.active.Some? then 1 else 0
  }

  /** An active exception is uncaught, and only something that was caught can be rethrown. */
  predicate WellFormed(r: Record) {
    && (r.active.Some? ==> r.uncaught > 0)
    && (r.rethrow ==> r.caught != [])
    && r.uncaught < UINT_MAX_1
  }

  predicate Ok(x: Option<Record>) {
    x.Some? ==> WellFormed(x.value)
  }

  /** Catch is lexically scoped: two records that meet do not both have caught exceptions. */
  predicate Scoped(x: Option<Record>, y: Option<Record>) {
    x.Some? && y.Some? ==> x.value.caught == [] || y.value.caught == []
  }

  function UncaughtOf(x: Option<Record>): nat {
    if x == None then 0 else x.value.uncaught
  }

  /** The counts are of nested exceptions, and nowhere near the range of their type. */
  predicate Fits(x: Option<Record>, y: Option<Record>) {
    UncaughtOf(x) + UncaughtOf(y) < UINT_MAX_1
  }

  /** The left record after the right one has been merged into it. */
  function MergeRecords(l: Record, r: Record): Record
    requires WellFormed(l) && WellFormed(r)
  {
    Record(if l.active.Some? then l.active else r.active,
           if l.caught != [] then l.rethrow else r.rethrow,
           if l.caught != [] then l.caught else r.caught,
           l.uncaught + r.uncaught - if l.active.Some? then HasActive(r) else 0)
  }

  function Merged(x: Option<Record>, y: Option<Record>): Option<Record>
    requires Ok(x) && Ok(y)
  {
    if x == None then y
    else if y == None then x
    else
      var m := MergeRecords(x.value, y.value);
      if Empty(m) then None else Some(m)
  }

  // ---------------------------------------------------------------- algebra

  /** Merging keeps records well formed; an active exception stays uncaught.  Of two records an empty
      one is never kept; an empty record that meets none is. */
  lemma MergedOk(x: Option<Record>, y: Option<Record>)
    requires Ok(x) && Ok(y) && Fits(x, y)
    ensures Ok(Merged(x, y)) && UncaughtOf(Merged(x, y)) <= UncaughtOf(x) + UncaughtOf(y)
    ensures Merged(x, y).Some? && Empty(Merged(x, y).value) <==> (x.Some? != y.Some? && Empty(if x.Some? then x.value else y.value))
    ensures x.Some? && y.Some? ==> (Merged(x, y) == None <==> Empty(MergeRecords(x.value, y.value)))
  {
  }

  lemma MergeAssociative(x: Option<Record>, y: Option<Record>, z: Option<Record>)
    requires Ok(x) && Ok(y) && Ok(z) && Scoped(x, y) && Scoped(y, z) && Scoped(x, z)
    requires UncaughtOf(x) + UncaughtOf(y) + UncaughtOf(z) < UINT_MAX_1
    ensures Ok(Merged(x, y)) && Ok(Merged(y, z))
    ensures Merged(Merged(x, y), z) == Merged(x, Merged(y, z))
  {
    MergedOk(x, y);
    MergedOk(y, z);
  }

  function ActiveOf(x: Option<Record>): Option<nat> {
    if x == None then None else x.value.active
  }

  function RethrowOf(x: Option<Record>): bool {
    x.Some? && x.value.rethrow
  }

  function CaughtOf(x: Option<Record>): seq<nat> {
    if x == None then [] else x.value.caught
  }

  /** Uncaught exceptions besides the active one. */
  function Background(x: Option<Record>): int {
    if x == None then 0 else x.value.uncaught - HasActive(x.value)
  }

  function First(a: Option<nat>, b: Option<nat>): Option<nat> {
    if a.Some? then a else b
  }

  /** What a merge comes to, field by field: the left active exception if there is one, a rethrow of
      either, what either had caught, and the uncaught counts added up. */
  lemma MergeMeans(x: Option<Record>, y: Option<Record>)
    requires Ok(x) && Ok(y) && Scoped(x, y)
    ensures ActiveOf(Merged(x, y)) == First(ActiveOf(x), ActiveOf(y))
    ensures RethrowOf(Merged(x, y)) == (RethrowOf(x) || RethrowOf(y))
    ensures CaughtOf(Merged(x, y)) == CaughtOf(x) + CaughtOf(y)
    ensures Background(Merged(x, y)) == Background(x) + Background(y)
  {
  }

  // ---------------------------------------------------------------- the exception of a record

  /** The exception that a resumed frame raises: one in flight, or the most recently caught one, which
      its handler is to throw again (unresolved), or none. */
  datatype Exc = Nil | Unresolved | Thrown(x: nat)

  function ExcOf(x: Option<Record>): Exc {
    if ActiveOf(x).Some? then Thrown(ActiveOf(x).value) else if RethrowOf(x) then Unresolved else Nil
  }

  /** The rule for records: one with an active exception does not ask for a rethrow. */
  predicate Settled(x: Option<Record>) {
    ActiveOf(x) == None || !RethrowOf(x)
  }

  function FirstExc(a: Exc, b: Exc): Exc {
    if a != Nil then a else b
  }

  /** A merge takes the left exception unless there is none, as it should, exactly when the left one is
      not an unresolved one that meets an active one; the rule for records is kept exactly when no
      unresolved exception meets an active one on either side. */
  lemma MergeExact(x: Option<Record>, y: Option<Record>)
    requires Ok(x) && Ok(y) && Scoped(x, y) && Settled(x) && Settled(y)
    ensures ExcOf(Merged(x, y)) == FirstExc(ExcOf(x), ExcOf(y)) <==> !(ExcOf(x) == Unresolved && ExcOf(y).Thrown?)
    ensures Settled(Merged(x, y)) <==>
      !(ExcOf(x) == Unresolved && ExcOf(y).Thrown?) && !(ExcOf(x).Thrown? && ExcOf(y) == Unresolved)
  {
    MergeMeans(x, y);
  }

  /** A handler is to throw `a` again; a strand after it throws `b`.  What is raised is `b`. */
  lemma LaterExceptionWins(a: nat, b: nat)
    ensures var x, y := Some(Record(None, true, [a], 0)), Some(Record(Some(b), false, [], 1));
      && Serial([x, y]) && Settled(x) && Settled(y)
      && ExcOf(x) == Unresolved && ExcOf(Merged(x, y)) == Thrown(b) && !Settled(Merged(x, y))
  {
    var x, y := Some(Record(None, true, [a], 0)), Some(Record(Some(b), false, [], 1));
    assert TotalUncaught([x, y]) == UncaughtOf(x) + TotalUncaught([y]) by { assert [x, y][1..] == [y]; }
    assert TotalUncaught([y]) == UncaughtOf(y) by { assert [y][1..] == []; }
  }

  /** The other way round the right exception wins, but the record still asks for a rethrow. */
  lemma RethrowStaysSet(a: nat, b: nat)
    ensures var x, y := Some(Record(Some(b), false, [], 1)), Some(Record(None, true, [a], 0));
      Scoped(x, y) && Ok(x) && Ok(y) && ExcOf(Merged(x, y)) == ExcOf(x) == Thrown(b) && !Settled(Merged(x, y))
  {
  }

  // ---------------------------------------------------------------- any order of joins

  datatype Joins = Leaf(record: Option<Record>) | Join(left: Joins, right: Joins)

  function Leaves(t: Joins): seq<Option<Record>> {
    match t
    case Leaf(r) => [r]
    case Join(l, r) => Leaves(l) + Leaves(r)
  }

  function TotalUncaught(rs: seq<Option<Record>>): nat {
    if rs == [] then 0 else UncaughtOf(rs[0]) + TotalUncaught(rs[1..])
  }

  function TotalBackground(rs: seq<Option<Record>>): int {
    if rs == [] then 0 else Background(rs[0]) + TotalBackground(rs[1..])
  }

  /** The first exception in serial order. */
  function FirstActive(rs: seq<Option<Record>>): Option<nat> {
    if rs == [] then None else First(ActiveOf(rs[0]), FirstActive(rs[1..]))
  }

  predicate AnyRethrow(rs: seq<Option<Record>>) {
    rs != [] && (RethrowOf(rs[0]) || AnyRethrow(rs[1..]))
  }

  function AllCaught(rs: seq<Option<Record>>): seq<nat> {
    if rs == [] then [] else CaughtOf(rs[0]) + AllCaught(rs[1..])
  }

  ghost predicate Serial(rs: seq<Option<Record>>) {
    && (forall i :: 0 <= i < |rs| ==> Ok(rs[i]))
    && (forall i, j :: 0 <= i < j < |rs| ==> Scoped(rs[i], rs[j]))
    && TotalUncaught(rs) < UINT_MAX_1
  }

  lemma {:induction false} Append(a: seq<Option<Record>>, b: seq<Option<Record>>)
    ensures TotalUncaught(a + b) == TotalUncaught(a) + TotalUncaught(b)
    ensures TotalBackground(a + b) == TotalBackground(a) + TotalBackground(b)
    ensures FirstActive(a + b) == First(FirstActive(a), FirstActive(b))
    ensures AllCaught(a + b) == AllCaught(a) + AllCaught(b)
    ensures AnyRethrow(a + b) == (AnyRethrow(a) || AnyRethrow(b))
  {
    if a == [] {
      assert a + b == b;
    } else {
      assert (a + b)[1..] == a[1..] + b;
      Append(a[1..], b);
    }
  }

  /** Where all the exceptions caught in a list come from. */
  lemma {:induction false} CaughtSomewhere(rs: seq<Option<Record>>)
    requires AllCaught(rs) != []
    ensures exists i :: 0 <= i < |rs| && CaughtOf(rs[i]) != []
  {
    if CaughtOf(rs[0]) == [] {
      CaughtSomewhere(rs[1..]);
      var i :| 0 <= i < |rs[1..]| && CaughtOf(rs[1..][i]) != [];
      assert rs[i + 1] == rs[1..][i];
    }
  }

  lemma SerialParts(a: seq<Option<Record>>, b: seq<Option<Record>>)
    requires Serial(a + b)
    ensures Serial(a) && Serial(b) && (AllCaught(a) == [] || AllCaught(b) == [])
    ensures TotalUncaught(a) + TotalUncaught(b) < UINT_MAX_1
  {
    Append(a, b);
    forall i | 0 <= i < |a| ensures Ok(a[i]) { assert (a + b)[i] == a[i]; }
    forall i | 0 <= i < |b| ensures Ok(b[i]) { assert (a + b)[|a| + i] == b[i]; }
    forall i, j | 0 <= i < j < |a| ensures Scoped(a[i], a[j]) { assert (a + b)[i] == a[i] && (a + b)[j] == a[j]; }
    forall i, j | 0 <= i < j < |b| ensures Scoped(b[i], b[j]) { assert (a + b)[|a| + i] == b[i] && (a + b)[|a| + j] == b[j]; }
    forall i, j | 0 <= i < |a| && 0 <= j < |b| ensures CaughtOf(a[i]) == [] || CaughtOf(b[j]) == [] {
      assert Scoped((a + b)[i], (a + b)[|a| + j]);
    }
    if AllCaught(a) != [] { CaughtSomewhere(a); }
    if AllCaught(b) != [] { CaughtSomewhere(b); }
  }

  /** What is left after all joins, in whatever order they happen. */
  ghost function Outcome(t: Joins): (r: Option<Record>)
    requires Serial(Leaves(t))
    ensures Ok(r) && UncaughtOf(r) <= TotalUncaught(Leaves(t)) && CaughtOf(r) == AllCaught(Leaves(t))
  {
    match t
    case Leaf(r) =>
      assert Leaves(t)[0] == r && Leaves(t)[1..] == [];
      r
    case Join(l, r) =>
      SerialParts(Leaves(l), Leaves(r));
      Append(Leaves(l), Leaves(r));
      MergedOk(Outcome(l), Outcome(r));
      MergeMeans(Outcome(l), Outcome(r));
      Merged(Outcome(l), Outcome(r))
  }

  /** Any order of joins yields the serially first active exception, and accounts for all the others. */
  lemma {:induction false} FieldsOfOutcome(t: Joins)
    requires Serial(Leaves(t))
    ensures ActiveOf(Outcome(t)) == FirstActive(Leaves(t)) && RethrowOf(Outcome(t)) == AnyRethrow(Leaves(t))
    ensures Background(Outcome(t)) == TotalBackground(Leaves(t))
  {
    match t
    case Leaf(r) =>
      assert Leaves(t)[0] == r && Leaves(t)[1..] == [];
    case Join(l, r) =>
      SerialParts(Leaves(l), Leaves(r));
      Append(Leaves(l), Leaves(r));
      FieldsOfOutcome(l);
      FieldsOfOutcome(r);
      hide Serial, FirstActive, AnyRethrow, TotalBackground, Merged;
      MergeMeans(Outcome(l), Outcome(r));
  }

  /** The exception that the serial program would raise: that of the first strand that has one. */
  function SerialExc(rs: seq<Option<Record>>): Exc {
    if rs == [] then Nil else FirstExc(ExcOf(rs[0]), SerialExc(rs[1..]))
  }

  ghost predicate AllSettled(rs: seq<Option<Record>>) {
    forall i :: 0 <= i < |rs| ==> Settled(rs[i])
  }

  /** Strand `i` has an unresolved exception, a later one an active exception, and no earlier one an
      active exception. */
  ghost predicate Overtaken(rs: seq<Option<Record>>, i: int, j: int) {
    && 0 <= i < j < |rs| && ExcOf(rs[i]) == Unresolved && ExcOf(rs[j]).Thrown?
    && forall k :: 0 <= k < i ==> !ExcOf(rs[k]).Thrown?
  }

  /** Whatever the order of joins, the exception raised is the serially first one exactly when no
      unresolved exception is overtaken by an active one. */
  lemma SeriallyFirst(t: Joins)
    requires Serial(Leaves(t)) && AllSettled(Leaves(t))
    ensures ExcOf(Outcome(t)) == SerialExc(Leaves(t)) <==> !exists i, j :: Overtaken(Leaves(t), i, j)
    ensures Settled(Outcome(t)) <==> !exists i, j :: 0 <= i < |Leaves(t)| && 0 <= j < |Leaves(t)| && ExcOf(Leaves(t)[i]) == Unresolved && ExcOf(Leaves(t)[j]).Thrown?
  {
    FieldsOfOutcome(t);
    FirstExact(Leaves(t));
    SettledExact(Leaves(t));
    hide Serial, FirstActive, AnyRethrow, SerialExc, Outcome, AllSettled, Overtaken;
  }

  lemma FirstExact(rs: seq<Option<Record>>)
    requires AllSettled(rs)
    ensures (if FirstActive(rs).Some? then Thrown(FirstActive(rs).value) else if AnyRethrow(rs) then Unresolved else Nil) == SerialExc(rs)
        <==> !exists i, j :: Overtaken(rs, i, j)
  {
    FirstActiveAt(rs);
    AnyRethrowAt(rs);
    SerialExcAt(rs);
    hide FirstActive, AnyRethrow, SerialExc;
    if SerialExc(rs) != Nil {
      var i :| FirstRaised(rs, i);
      if ExcOf(rs[i]).Thrown? {
        assert FirstThrown(rs, i);
      } else if FirstActive(rs).Some? {
        var j :| FirstThrown(rs, j);
        assert Overtaken(rs, i, j);
      }
    }
  }

  lemma SettledExact(rs: seq<Option<Record>>)
    requires AllSettled(rs)
    ensures FirstActive(rs) == None || !AnyRethrow(rs) <==>
      !exists i, j :: 0 <= i < |rs| && 0 <= j < |rs| && ExcOf(rs[i]) == Unresolved && ExcOf(rs[j]).Thrown?
  {
    FirstActiveAt(rs);
    AnyRethrowAt(rs);
    hide FirstActive, AnyRethrow, FirstThrown;
    if FirstActive(rs).Some? && AnyRethrow(rs) {
      var i :| 0 <= i < |rs| && RethrowOf(rs[i]);
      var j :| 0 <= j < |rs| && ExcOf(rs[j]).Thrown?;
      assert ExcOf(rs[i]) == Unresolved && ExcOf(rs[j]).Thrown?;
    }
  }

  lemma {:induction false} FirstActiveAt(rs: seq<Option<Record>>)
    ensures FirstActive(rs) == None <==> forall i :: 0 <= i < |rs| ==> !ExcOf(rs[i]).Thrown?
    ensures FirstActive(rs).Some? ==> exists i :: FirstThrown(rs, i)
    ensures forall i :: FirstThrown(rs, i) ==> FirstActive(rs) == ActiveOf(rs[i])
  {
    if rs != [] {
      var rest := rs[1..];
      FirstActiveAt(rest);
      assert forall i :: 0 <= i < |rest| ==> rest[i] == rs[i + 1];
      forall i | FirstThrown(rs, i) ensures FirstActive(rs) == ActiveOf(rs[i]) {
        if i > 0 { assert FirstThrown(rest, i - 1); }
      }
      if ActiveOf(rs[0]).Some? {
        assert FirstThrown(rs, 0);
      } else if i :| FirstThrown(rest, i) {
        assert FirstThrown(rs, i + 1);
      }
    }
  }

  predicate FirstThrown(rs: seq<Option<Record>>, i: int) {
    0 <= i < |rs| && ExcOf(rs[i]).Thrown? && forall k :: 0 <= k < i ==> !ExcOf(rs[k]).Thrown?
  }

  lemma {:induction false} AnyRethrowAt(rs: seq<Option<Record>>)
    ensures AnyRethrow(rs) <==> exists i :: 0 <= i < |rs| && RethrowOf(rs[i])
  {
    if rs != [] {
      AnyRethrowAt(rs[1..]);
      assert forall i :: 0 <= i < |rs[1..]| ==> rs[1..][i] == rs[i + 1];
      if i :| 0 <= i < |rs| && RethrowOf(rs[i]) {
        if i > 0 { assert RethrowOf(rs[1..][i - 1]); }
      }
    }
  }

  predicate FirstRaised(rs: seq<Option<Record>>, i: int) {
    0 <= i < |rs| && ExcOf(rs[i]) != Nil && forall k :: 0 <= k < i ==> ExcOf(rs[k]) == Nil
  }

  lemma {:induction false} SerialExcAt(rs: seq<Option<Record>>)
    ensures SerialExc(rs) == Nil <==> forall i :: 0 <= i < |rs| ==> ExcOf(rs[i]) == Nil
    ensures SerialExc(rs) != Nil ==> exists i :: FirstRaised(rs, i)
    ensures forall i :: FirstRaised(rs, i) ==> SerialExc(rs) == ExcOf(rs[i])
  {
    if rs != [] {
      var rest := rs[1..];
      SerialExcAt(rest);
      assert forall i :: 0 <= i < |rest| ==> rest[i] == rs[i + 1];
      forall i | FirstRaised(rs, i) ensures SerialExc(rs) == ExcOf(rs[i]) {
        if i > 0 { assert FirstRaised(rest, i - 1); }
      }
      if ExcOf(rs[0]) != Nil {
        assert FirstRaised(rs, 0);
      } else if i :| FirstRaised(rest, i) {
        assert FirstRaised(rs, i + 1);
      }
    }
  }

  // ---------------------------------------------------------------- grouping

  /** The joins that merge every strand into all that follow it. */
  function Chain(rs: seq<Option<Record>>): (t: Joins)
    requires rs != []
    ensures Leaves(t) == rs
  {
    if |rs| == 1 then Leaf(rs[0]) else Join(Leaf(rs[0]), Chain(rs[1..]))
  }

  lemma ChainStep(x: Option<Record>, rs: seq<Option<Record>>)
    requires rs != [] && Serial([x] + rs)
    ensures Serial(rs) && Ok(x) && Scoped(x, Outcome(Chain(rs))) && UncaughtOf(x) + TotalUncaught(rs) < UINT_MAX_1
    ensures Outcome(Chain([x] + rs)) == Merged(x, Outcome(Chain(rs)))
  {
    SerialParts([x], rs);
    Append([x], rs);
    assert [x][1..] == [];
    assert AllCaught([x]) == CaughtOf(x) && TotalUncaught([x]) == UncaughtOf(x);
    assert ([x] + rs)[1..] == rs;
  }

  lemma ChainOne(x: Option<Record>)
    requires Serial([x])
    ensures Outcome(Chain([x])) == x
  {
  }

  /** Two chains joined are one chain. */
  lemma {:induction false} ChainJoin(a: seq<Option<Record>>, b: seq<Option<Record>>)
    requires a != [] && b != [] && Serial(a + b)
    ensures Serial(a) && Serial(b)
    ensures Outcome(Chain(a + b)) == Merged(Outcome(Chain(a)), Outcome(Chain(b)))
    decreases |a|
  {
    hide Serial, Leaves, Chain, Merged, Outcome, TotalUncaught, AllCaught;
    SerialParts(a, b);
    if |a| == 1 {
      assert a == [a[0]];
      ChainOne(a[0]);
      ChainStep(a[0], b);
    } else {
      var rest := a[1..];
      assert a == [a[0]] + rest && a + b == [a[0]] + (rest + b);
      ChainStep(a[0], rest + b);
      ChainJoin(rest, b);
      ChainStep(a[0], rest);
      Append(rest, b);
      SerialParts(rest, b);
      ScopedLater(a, b);
      MergeAssociative(a[0], Outcome(Chain(rest)), Outcome(Chain(b)));
    }
  }

  lemma ScopedLater(a: seq<Option<Record>>, b: seq<Option<Record>>)
    requires a != [] && b != [] && Serial(a + b) && Serial(b)
    ensures Scoped(a[0], Outcome(Chain(b)))
  {
    SerialParts(a, b);
    assert AllCaught(a) == CaughtOf(a[0]) + AllCaught(a[1..]);
  }

  lemma {:induction false} AnyGrouping(t: Joins)
    requires Serial(Leaves(t))
    ensures Leaves(t) != [] && Outcome(t) == Outcome(Chain(Leaves(t)))
  {
    match t
    case Leaf(r) => assert Leaves(t)[0] == r;
    case Join(l, r) =>
      SerialParts(Leaves(l), Leaves(r));
      AnyGrouping(l);
      AnyGrouping(r);
      ChainJoin(Leaves(l), Leaves(r));
  }

  /** The strands that have a record. */
  function Pending(rs: seq<Option<Record>>): (p: seq<Option<Record>>)
    ensures forall i :: 0 <= i < |p| ==> p[i] in rs && p[i].Some?
  {
    if rs == [] then [] else if rs[0] == None then Pending(rs[1..]) else [rs[0]] + Pending(rs[1..])
  }

  lemma ScopedAll(x: Option<Record>, rest: seq<Option<Record>>, p: seq<Option<Record>>)
    requires Serial([x] + rest) && forall j :: 0 <= j < |p| ==> p[j] in rest
    ensures forall j :: 0 <= j < |p| ==> Scoped(x, p[j])
  {
    var rs := [x] + rest;
    forall j | 0 <= j < |p| ensures Scoped(x, p[j]) {
      var i :| 0 <= i < |rest| && rest[i] == p[j];
      assert Scoped(rs[0], rs[i + 1]);
    }
  }

  lemma SerialCons(x: Option<Record>, rest: seq<Option<Record>>, p: seq<Option<Record>>)
    requires Serial([x] + rest) && Serial(p) && TotalUncaught(p) == TotalUncaught(rest)
    requires forall j :: 0 <= j < |p| ==> Scoped(x, p[j])
    ensures Serial([x] + p) && TotalUncaught([x] + p) == TotalUncaught([x] + rest)
  {
    Append([x], p);
    Append([x], rest);
    hide TotalUncaught, Scoped, Ok;
    assert ([x] + rest)[0] == x;
  }

  lemma {:induction false} PendingSerial(rs: seq<Option<Record>>)
    requires Serial(rs)
    ensures Serial(Pending(rs)) && TotalUncaught(Pending(rs)) == TotalUncaught(rs)
  {
    if rs != [] {
      var x, rest := rs[0], rs[1..];
      assert rs == [x] + rest;
      SerialParts([x], rest);
      PendingSerial(rest);
      var p := Pending(rest);
      if x.Some? {
        ScopedAll(x, rest, p);
        SerialCons(x, rest, p);
      }
    }
  }

  /** Strands without a record leave no trace. */
  lemma {:induction false} OnlyPending(rs: seq<Option<Record>>)
    requires rs != [] && Serial(rs)
    ensures Serial(Pending(rs))
    ensures Outcome(Chain(rs)) == if Pending(rs) == [] then None else Outcome(Chain(Pending(rs)))
  {
    PendingSerial(rs);
    var x, rest := rs[0], rs[1..];
    assert rs == [x] + rest;
    if rest == [] {
      assert rs == [x] && (x == None ==> Pending(rs) == []) && (x.Some? ==> Pending(rs) == [x]);
    } else {
      ChainStep(x, rest);
      OnlyPending(rest);
      if x.Some? && Pending(rest) != [] { ChainStep(x, Pending(rest)); }
    }
  }

  /** What is pending in the end depends only on the records there are and their serial order: not on
      the grouping of the joins, and not on the strands that have none. */
  lemma OnlyRecordsMatter(t: Joins, u: Joins)
    requires Serial(Leaves(t)) && Serial(Leaves(u)) && Pending(Leaves(t)) == Pending(Leaves(u))
    ensures Outcome(t) == Outcome(u)
  {
    AnyGrouping(t);
    AnyGrouping(u);
    OnlyPending(Leaves(t));
    OnlyPending(Leaves(u));
  }

  // ---------------------------------------------------------------- the code

  /** The C++ runtime's exception objects. */
  class ExceptionHeap {
    var live: set<nat>

    constructor (live: set<nat>)
      ensures this.live == live
    {
      this.live := live;
    }

    /** Deleting what is not there is an error. */
    method Delete(x: nat)
      requires x in live
      modifies this
      ensures live == old(live) - {x}
    {
      live := live - {x};
    }
  }

  /** The exception objects a record holds. */
  function Objects(r: Record): set<nat> {
    OneOrNone(r.active) + Elems(r.caught)
  }

  function OneOrNone(x: Option<nat>): set<nat> {
    if x.Some? then {x.value} else {}
  }

  function Elems(s: seq<nat>): set<nat> {
    set x | x in s
  }

  lemma ElemsNext(s: seq<nat>, n: nat)
    requires n < |s|
    ensures Elems(s[..n + 1]) == Elems(s[..n]) + {s[n]}
  {
    assert s[..n + 1] == s[..n] + [s[n]];
  }

  /** The exception of the right record that has to give way. */
  function Dropped(l: Record, r: Record): set<nat> {
    if l.active.Some? then OneOrNone(r.active) else {}
  }

  /** Every exception of the two records is in the merged one, or is the one that gives way. */
  lemma MergeObjects(l: Record, r: Record)
    requires WellFormed(l) && WellFormed(r) && NoSharing(l) && NoSharing(r) && Objects(l) !! Objects(r)
    requires l.caught == [] || r.caught == []
    ensures var m := MergeRecords(l, r);
      && NoSharing(m) && Objects(l) + Objects(r) == Objects(m) + Dropped(l, r) && Objects(m) !! Dropped(l, r)
  {
    assert forall x :: x in l.caught ==> x in Objects(l);
    assert forall x :: x in r.caught ==> x in Objects(r);
  }

  predicate NoSharing(r: Record) {
    && (forall i, j :: 0 <= i < j < |r.caught| ==> r.caught[i] != r.caught[j])
    && (r.active.Some? ==> r.active.value !in r.caught)
  }

  class PendingException {
    var active: Option<nat>
    var rethrow: bool
    var caught: seq<nat>
    var uncaught: nat

    ghost function Contents(): Record
      reads this
    {
      Record(active, rethrow, caught, uncaught)
    }

    constructor Make(state: Record)
      ensures Contents() == state
    {
      active, rethrow, caught, uncaught := state.active, state.rethrow, state.caught, state.uncaught;
    }

    method IsEmpty() returns (e: bool)
      ensures e <==> Empty(Contents())
    {
      e := active == None && !rethrow && caught == [] && uncaught == 0;
    }

    /** Deletes every exception the record holds. */
    method Destruct(heap: ExceptionHeap)
      requires NoSharing(Contents()) && Objects(Contents()) <= heap.live
      modifies this`active, this`caught, heap
      ensures active == None && caught == [] && heap.live == old(heap.live) - old(Objects(Contents()))
    {
      ghost var was := Contents();
      if active.Some? {
        heap.Delete(active.value);
        active := None;
      }
      ghost var n := 0;
      while caught != []
        invariant n <= |was.caught| && caught == was.caught[n..]
        invariant active == None && heap.live == old(heap.live) - OneOrNone(was.active) - Elems(was.caught[..n])
        decreases |caught|
      {
        var exc := caught[0];
        caught := caught[1..];
        ElemsNext(was.caught, n);
        assert exc in Elems(was.caught) && exc !in was.caught[..n];
        heap.Delete(exc);
        n := n + 1;
      }
      assert was.caught[..n] == was.caught;
    }
  }

  ghost function ContentsOf(p: PendingException?): Option<Record>
    reads p
  {
    if p == null then None else Some(p.Contents())
  }

  /** Merge the right record into the left.  The exception that is deleted is the right active one, and
      only when the left one is kept instead; the records that are given back are those not returned. */
  method MergePendingExceptions(left: PendingException?, right: PendingException?, heap: ExceptionHeap)
      returns (m: PendingException?, freed: set<PendingException?>)
    requires Ok(ContentsOf(left)) && Ok(ContentsOf(right)) && Scoped(ContentsOf(left), ContentsOf(right))
    requires Fits(ContentsOf(left), ContentsOf(right))
    requires left != null && right != null ==> CanMeet(left, right, heap)
    modifies left, right, heap
    ensures ContentsOf(m) == Merged(old(ContentsOf(left)), old(ContentsOf(right))) && m in {left, right, null}
    ensures left == null || right == null ==> heap.live == old(heap.live) && freed == {}
    ensures left != null && right != null ==>
      && heap.live == old(heap.live) - Dropped(old(left.Contents()), old(right.Contents()))
      && freed == if m == null then {left, right} else {right}
  {
    if left == null {
      return right, {};
    }
    if right == null {
      return left, {};
    }
    MergeRight(left, right, heap);
    freed := {right};
    var e := left.IsEmpty();
    if e {
      left.Destruct(heap);
      freed := freed + {left};
      m := null;
    } else {
      m := left;
    }
  }

  /** Two records that can be merged: no exception is in both, and all of theirs exist. */
  ghost predicate CanMeet(left: PendingException, right: PendingException, heap: ExceptionHeap)
    reads left, right, heap
  {
    && left != right && NoSharing(left.Contents()) && NoSharing(right.Contents())
    && Objects(left.Contents()) !! Objects(right.Contents())
    && Objects(left.Contents()) + Objects(right.Contents()) <= heap.live
  }

  method MergeRight(left: PendingException, right: PendingException, heap: ExceptionHeap)
    requires WellFormed(left.Contents()) && WellFormed(right.Contents()) && (left.caught == [] || right.caught == [])
    requires CanMeet(left, right, heap)
    modifies left, right, heap
    ensures left.Contents() == MergeRecords(old(left.Contents()), old(right.Contents()))
    ensures heap.live == old(heap.live) - Dropped(old(left.Contents()), old(right.Contents()))
    ensures NoSharing(left.Contents()) && Objects(left.Contents()) <= heap.live
    ensures old(Objects(left.Contents()) + Objects(right.Contents()))
         == Objects(left.Contents()) + Dropped(old(left.Contents()), old(right.Contents()))
  {
    MergeObjects(left.Contents(), right.Contents());
    if left.caught != [] {
      assert right.caught == [];
    } else {
      assert !left.rethrow;
      left.rethrow := right.rethrow;
      left.caught := right.caught;
      right.caught := [];
    }
    var rightUncaught := right.uncaught;
    if left.active == None {
      left.active := right.active;
      right.active := None;
      left.uncaught := left.uncaught + rightUncaught;
    } else {
      left.uncaught := left.uncaught + (rightUncaught - if right.active.Some? then 1 else 0);
    }
    assert left.Contents() == MergeRecords(old(left.Contents()), old(right.Contents()));
    assert Objects(right.Contents()) == Dropped(old(left.Contents()), old(right.Contents()));
    right.Destruct(heap);
  }

  // ---------------------------------------------------------------- any order of joins, in place

  function ObjectsOf(x: Option<Record>): set<nat> {
    if x == None then {} else Objects(x.value)
  }

  function AllObjects(rs: seq<Option<Record>>): set<nat> {
    if rs == [] then {} else ObjectsOf(rs[0]) + AllObjects(rs[1..])
  }

  /** No exception is held twice. */
  predicate Separate(rs: seq<Option<Record>>) {
    rs == [] || ((rs[0].Some? ==> NoSharing(rs[0].value)) && ObjectsOf(rs[0]) !! AllObjects(rs[1..]) && Separate(rs[1..]))
  }

  lemma {:induction false} SeparateParts(a: seq<Option<Record>>, b: seq<Option<Record>>)
    ensures AllObjects(a + b) == AllObjects(a) + AllObjects(b)
    ensures Separate(a + b) <==> Separate(a) && Separate(b) && AllObjects(a) !! AllObjects(b)
  {
    if a == [] {
      assert a + b == b;
    } else {
      assert (a + b)[1..] == a[1..] + b;
      SeparateParts(a[1..], b);
      hide ObjectsOf, NoSharing;
    }
  }

  /** The records of all strands, as objects, and how they join. */
  datatype Strands = One(record: PendingException?) | Two(left: Strands, right: Strands)

  ghost function Footprint(t: Strands): set<PendingException> {
    match t
    case One(p) => if p == null then {} else {p}
    case Two(l, r) => Footprint(l) + Footprint(r)
  }

  ghost predicate Apart(t: Strands) {
    t.Two? ==> Footprint(t.left) !! Footprint(t.right) && Apart(t.left) && Apart(t.right)
  }

  ghost function Snapshot(t: Strands): Joins
    reads Footprint(t)
  {
    match t
    case One(p) => Leaf(ContentsOf(p))
    case Two(l, r) => Join(Snapshot(l), Snapshot(r))
  }

  /** Of the objects `a` those not in `x` are deleted, and nothing else is. */
  ghost predicate Deletes(before: set<nat>, after: set<nat>, a: set<nat>, x: set<nat>) {
    x <= a && after == before - (a - x)
  }

  /** All joins of a computation, in any grouping.  Every exception of every strand is in the record
      that is left, or has been deleted: each once, since what is deleted has to be there. */
  method JoinAll(t: Strands, heap: ExceptionHeap, ghost all: set<PendingException>) returns (m: PendingException?)
    requires Footprint(t) <= all && Apart(t) && Serial(Leaves(Snapshot(t))) && Separate(Leaves(Snapshot(t)))
    requires AllObjects(Leaves(Snapshot(t))) <= heap.live
    modifies Footprint(t), heap
    ensures m != null ==> m in Footprint(t) && NoSharing(m.Contents())
    ensures ContentsOf(m) == old(Outcome(Snapshot(t)))
    ensures Deletes(old(heap.live), heap.live, old(AllObjects(Leaves(Snapshot(t)))), ObjectsOf(ContentsOf(m)))
    decreases t, 1
  {
    hide Serial, Separate, AllObjects, Merged, ObjectsOf, Outcome, Leaves, Snapshot, Ok, Scoped, Fits;
    match t
    case One(p) =>
      m := p;
      OneFacts(p);
    case Two(l, r) =>
      TwoFacts(l, r);
      m := JoinSubtrees(l, r, heap, all, AllObjects(Leaves(Snapshot(l))), AllObjects(Leaves(Snapshot(r))));
  }

  method JoinSubtrees(l: Strands, r: Strands, heap: ExceptionHeap, ghost all: set<PendingException>, ghost a: set<nat>, ghost b: set<nat>)
      returns (m: PendingException?)
    requires Footprint(l) + Footprint(r) <= all && Footprint(l) !! Footprint(r) && Apart(l) && Apart(r)
    requires var ls, rs := Leaves(Snapshot(l)), Leaves(Snapshot(r));
      Serial(ls) && Serial(rs) && Separate(ls) && Separate(rs) && AllObjects(ls) == a && AllObjects(rs) == b
    requires a !! b && a + b <= heap.live
    requires var x, y := Outcome(Snapshot(l)), Outcome(Snapshot(r)); Ok(x) && Ok(y) && Scoped(x, y) && Fits(x, y)
    modifies Footprint(l), Footprint(r), heap
    ensures m != null ==> m in Footprint(l) + Footprint(r) && NoSharing(m.Contents())
    ensures ContentsOf(m) == old(Merged(Outcome(Snapshot(l)), Outcome(Snapshot(r))))
    ensures Deletes(old(heap.live), heap.live, a + b, ObjectsOf(ContentsOf(m)))
    decreases Two(l, r), 0
  {
    hide Serial, Separate, AllObjects, Merged, ObjectsOf, Outcome, Leaves, Snapshot, Ok, Scoped, Fits, Footprint, Apart, NoSharing, Deletes;
    ghost var h0 := heap.live;
    var left := JoinAll(l, heap, all);
    ghost var h1, x := heap.live, ObjectsOf(ContentsOf(left));
    StillThere(h0, a, b, x, h1);
    assert left != null ==> left in Footprint(l) && left !in Footprint(r);
    m := JoinRest(left, r, heap, all, a, b);
    DeletedMore(h0, h1, heap.live, a, b, x, ObjectsOf(ContentsOf(m)));
  }

  /** The joins of the right part, and then with what the left part came to. */
  method JoinRest(left: PendingException?, r: Strands, heap: ExceptionHeap, ghost all: set<PendingException>, ghost a: set<nat>, ghost b: set<nat>)
      returns (m: PendingException?)
    requires Footprint(r) <= all && Apart(r) && (left != null ==> left !in Footprint(r) && NoSharing(left.Contents()))
    requires var rs := Leaves(Snapshot(r)); Serial(rs) && Separate(rs) && AllObjects(rs) == b
    requires a !! b && ObjectsOf(ContentsOf(left)) <= a && ObjectsOf(ContentsOf(left)) + b <= heap.live
    requires var x, y := ContentsOf(left), Outcome(Snapshot(r)); Ok(x) && Ok(y) && Scoped(x, y) && Fits(x, y)
    modifies left, Footprint(r), heap
    ensures m != null ==> (m == left || m in Footprint(r)) && NoSharing(m.Contents())
    ensures ContentsOf(m) == old(Merged(ContentsOf(left), Outcome(Snapshot(r))))
    ensures Deletes(old(heap.live), heap.live, old(ObjectsOf(ContentsOf(left))) + b, ObjectsOf(ContentsOf(m)))
    decreases r, 2
  {
    hide Serial, Separate, AllObjects, Merged, ObjectsOf, Outcome, Leaves, Snapshot, Ok, Scoped, Fits, Footprint, Apart, NoSharing, Deletes;
    ghost var x, h1 := ObjectsOf(ContentsOf(left)), heap.live;
    CommuteUnion(x, b);
    var right := JoinAll(r, heap, all);
    ghost var y, h2 := ObjectsOf(ContentsOf(right)), heap.live;
    SmallerApart(a, b, x);
    StillThere(h1, b, x, y, h2);
    CommuteUnion(y, x);
    m := JoinTwo(left, right, heap, a, b);
    Deleted(h1, h2, heap.live, b, x, y, ObjectsOf(ContentsOf(m)));
  }

  lemma OneFacts(p: PendingException?)
    requires Separate(Leaves(Snapshot(One(p))))
    ensures Leaves(Snapshot(One(p))) == [ContentsOf(p)] && AllObjects([ContentsOf(p)]) == ObjectsOf(ContentsOf(p))
    ensures p != null ==> NoSharing(p.Contents())
    ensures Serial(Leaves(Snapshot(One(p)))) ==> Outcome(Snapshot(One(p))) == ContentsOf(p)
  {
    assert [ContentsOf(p)][1..] == [];
  }

  lemma TwoFacts(l: Strands, r: Strands)
    requires Serial(Leaves(Snapshot(Two(l, r)))) && Separate(Leaves(Snapshot(Two(l, r))))
    ensures var a, b, ab := Leaves(Snapshot(l)), Leaves(Snapshot(r)), Leaves(Snapshot(Two(l, r)));
      && Serial(a) && Serial(b) && Separate(a) && Separate(b)
      && AllObjects(ab) == AllObjects(a) + AllObjects(b) && AllObjects(a) !! AllObjects(b)
      && var x, y := Outcome(Snapshot(l)), Outcome(Snapshot(r));
         Ok(x) && Ok(y) && Scoped(x, y) && Fits(x, y) && Outcome(Snapshot(Two(l, r))) == Merged(x, y)
  {
    hide Serial, Separate, Outcome, Merged, Ok, Scoped, Fits, ContentsOf;
    assert Leaves(Snapshot(Two(l, r))) == Leaves(Snapshot(l)) + Leaves(Snapshot(r));
    SeparateParts(Leaves(Snapshot(l)), Leaves(Snapshot(r)));
    JoinFacts(Snapshot(l), Snapshot(r));
  }

  lemma JoinFacts(l: Joins, r: Joins)
    requires Serial(Leaves(l) + Leaves(r))
    ensures Serial(Leaves(l)) && Serial(Leaves(r)) && Serial(Leaves(Join(l, r)))
    ensures Ok(Outcome(l)) && Ok(Outcome(r)) && Scoped(Outcome(l), Outcome(r)) && Fits(Outcome(l), Outcome(r))
    ensures Outcome(Join(l, r)) == Merged(Outcome(l), Outcome(r))
  {
    hide Serial, Merged;
    SerialParts(Leaves(l), Leaves(r));
  }

  lemma CommuteUnion(x: set<nat>, y: set<nat>)
    ensures x + y == y + x && (x !! y ==> y !! x)
  {
  }

  lemma StillThere(h0: set<nat>, a: set<nat>, b: set<nat>, x: set<nat>, h1: set<nat>)
    requires a !! b && a + b <= h0 && Deletes(h0, h1, a, x)
    ensures x <= a && x <= h1 && b <= h1 && x !! b && x + b <= h1
  {
  }

  lemma SmallerApart(a: set<nat>, b: set<nat>, x: set<nat>)
    requires a !! b && x <= a
    ensures b !! x
  {
  }

  lemma Deleted(h1: set<nat>, h2: set<nat>, h3: set<nat>, b: set<nat>, x: set<nat>, y: set<nat>, z: set<nat>)
    requires b !! x && Deletes(h1, h2, b, y) && Deletes(h2, h3, x + y, z)
    ensures Deletes(h1, h3, x + b, z)
  {
  }

  lemma DeletedMore(h0: set<nat>, h1: set<nat>, h3: set<nat>, a: set<nat>, b: set<nat>, x: set<nat>, z: set<nat>)
    requires a !! b && Deletes(h0, h1, a, x) && Deletes(h1, h3, x + b, z)
    ensures Deletes(h0, h3, a + b, z)
  {
  }

  method JoinTwo(left: PendingException?, right: PendingException?, heap: ExceptionHeap, ghost a: set<nat>, ghost b: set<nat>)
      returns (m: PendingException?)
    requires Ok(ContentsOf(left)) && Ok(ContentsOf(right)) && Scoped(ContentsOf(left), ContentsOf(right))
    requires Fits(ContentsOf(left), ContentsOf(right))
    requires left != null ==> NoSharing(left.Contents())
    requires right != null ==> NoSharing(right.Contents()) && right != left
    requires a !! b && ObjectsOf(ContentsOf(left)) <= a && ObjectsOf(ContentsOf(right)) <= b
    requires ObjectsOf(ContentsOf(left)) + ObjectsOf(ContentsOf(right)) <= heap.live
    modifies left, right, heap
    ensures ContentsOf(m) == Merged(old(ContentsOf(left)), old(ContentsOf(right)))
    ensures m != null ==> m in {left, right} && NoSharing(m.Contents())
    ensures Deletes(old(heap.live), heap.live, old(ObjectsOf(ContentsOf(left)) + ObjectsOf(ContentsOf(right))), ObjectsOf(ContentsOf(m)))
  {
    ghost var x, y := ContentsOf(left), ContentsOf(right);
    if left != null && right != null {
      MergeObjects(x.value, y.value);
      EmptyHoldsNothing(MergeRecords(x.value, y.value));
    }
    hide Objects, NoSharing, Dropped, MergeRecords;
    var freed;
    m, freed := MergePendingExceptions(left, right, heap);
  }

  lemma EmptyHoldsNothing(r: Record)
    ensures Empty(r) ==> Objects(r) == {}
  {
  }
}
