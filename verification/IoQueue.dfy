/**
 The queue between a worker and its I/O thread: a ring written by one side and read by the
 other, next to an eventfd used as a semaphore, neither protected by a lock.  The machine has
 one step per access to the shared memory or the eventfd; the class has the code.
*/
module IoQueue {
  import opened Wrappers

  const IO_Q_SIZE: nat := 4096

  /** Between two accesses of the pushing worker. */
  datatype Producer<T> =
    | ProducerIdle
    | Waiting(op: T)       // spinning until there is room
    | HasRoom(op: T)       // saw head != tail + 1
    | SlotWritten(op: T)
    | TailStored           // the eventfd is not written yet

  /** Between two accesses of the I/O thread. */
  datatype Consumer<T> =
    | ConsumerIdle
    | NotEmpty             // saw head != tail
    | SlotRead(op: T)
    | HeadStored(op: T)    // the eventfd is not read yet

  datatype State<T> = State(
    head: nat, tail: nat, slots: seq<T>, count: nat,
    producer: Producer<T>, consumer: Consumer<T>,
    pushed: seq<T>, popped: seq<T>      // what has been made visible, what has been taken
  )

  datatype Action<T> =
    | StartPush(op: T) | SeeRoom | WriteSlot | StoreTail | WriteEventfd
    | SeeOp | ReadSlot | StoreHead | ReadEventfd

  function Init<T>(slots: seq<T>): State<T> {
    State(0, 0, slots, 0, ProducerIdle, ConsumerIdle, [], [])
  }

  function Next(i: nat): nat {
    (i + 1) % IO_Q_SIZE
  }

  predicate Full<T>(s: State<T>) {
    Next(s.tail) == s.head
  }

  predicate Empty<T>(s: State<T>) {
    s.head == s.tail
  }

  /** The producer cannot go on. */
  predicate ProducerSpins<T>(s: State<T>) {
    s.producer.Waiting? && Full(s)
  }

  /** The consumer is blocked in its read of the eventfd. */
  predicate ConsumerBlocked<T>(s: State<T>) {
    s.consumer.HeadStored? && s.count == 0
  }

  predicate Enabled<T>(s: State<T>, a: Action<T>) {
    match a
    case StartPush(_) => s.producer.ProducerIdle?
    case SeeRoom => s.producer.Waiting? && !Full(s)
    case WriteSlot => s.producer.HasRoom? && s.tail < |s.slots|
    case StoreTail => s.producer.SlotWritten?
    case WriteEventfd => s.producer.TailStored?
    case SeeOp => s.consumer.ConsumerIdle? && !Empty(s)
    case ReadSlot => s.consumer.NotEmpty? && s.head < |s.slots|
    case StoreHead => s.consumer.SlotRead?
    case ReadEventfd => s.consumer.HeadStored? && s.count > 0
  }

  function Apply<T>(s: State<T>, a: Action<T>): State<T>
    requires Enabled(s, a)
  {
    match a
    case StartPush(op) => s.(producer := Waiting(op))
    case SeeRoom => s.(producer := HasRoom(s.producer.op))
    case WriteSlot => s.(slots := s.slots[s.tail := s.producer.op], producer := SlotWritten(s.producer.op))
    case StoreTail => s.(tail := Next(s.tail), pushed := s.pushed + [s.producer.op], producer := TailStored)
    case WriteEventfd => s.(count := s.count + 1, producer := ProducerIdle)
    case SeeOp => s.(consumer := NotEmpty)
    case ReadSlot => s.(consumer := SlotRead(s.slots[s.head]))
    case StoreHead => s.(head := Next(s.head), popped := s.popped + [s.consumer.op], consumer := HeadStored(s.consumer.op))
    case ReadEventfd => s.(count := s.count - 1, consumer := ConsumerIdle)
  }

  // ---------------------------------------------------------------- the invariant

  function Length<T>(s: State<T>): int {
    |s.pushed| - |s.popped|
  }

  /** The ring holds the operations pushed and not yet popped, in its slots, in order. */
  ghost predicate Ring<T(!new)>(s: State<T>) {
    && |s.slots| == IO_Q_SIZE && 0 <= Length(s) < IO_Q_SIZE
    && s.head == |s.popped| % IO_Q_SIZE && s.tail == |s.pushed| % IO_Q_SIZE
    && s.popped <= s.pushed
    && (forall i :: |s.popped| <= i < |s.pushed| ==> s.slots[i % IO_Q_SIZE] == s.pushed[i])
  }

  ghost predicate Parties<T(!new)>(s: State<T>) {
    && (s.producer.HasRoom? ==> Length(s) < IO_Q_SIZE - 1)
    && (s.producer.SlotWritten? ==>
          Length(s) < IO_Q_SIZE - 1 && s.tail < |s.slots| && s.slots[s.tail] == s.producer.op)
    && (s.consumer.NotEmpty? ==> Length(s) > 0)
    && (s.consumer.SlotRead? ==> Length(s) > 0 && s.consumer.op == s.pushed[|s.popped|])
    && (s.consumer.HeadStored? ==> s.popped != [] && s.consumer.op == s.popped[|s.popped| - 1])
  }

  /** The semaphore counts the operations in the ring. */
  ghost predicate Counted<T(!new)>(s: State<T>) {
    s.count + (if s.producer.TailStored? then 1 else 0) == Length(s) + (if s.consumer.HeadStored? then 1 else 0)
  }

  ghost predicate Inv<T(!new)>(s: State<T>) {
    Ring(s) && Parties(s) && Counted(s)
  }

  lemma NextMod(n: nat)
    ensures Next(n % IO_Q_SIZE) == (n + 1) % IO_Q_SIZE
  {
  }

  /** Positions less than a ring apart are in different slots. */
  lemma SlotsApart(i: nat, j: nat)
    requires i < j < i + IO_Q_SIZE
    ensures i % IO_Q_SIZE != j % IO_Q_SIZE
  {
  }

  /** The full test says exactly that all slots but one are in use, the empty test that none is. */
  lemma TestsExact<T(!new)>(s: State<T>)
    requires Ring(s)
    ensures Full(s) <==> Length(s) == IO_Q_SIZE - 1
    ensures Empty(s) <==> Length(s) == 0
  {
    NextMod(|s.pushed|);
    if 0 < Length(s) { SlotsApart(|s.popped|, |s.pushed|); }
    if Length(s) < IO_Q_SIZE - 1 { SlotsApart(|s.popped|, |s.pushed| + 1); }
    if Length(s) == IO_Q_SIZE - 1 { assert |s.pushed| + 1 == |s.popped| + IO_Q_SIZE; }
  }

  lemma InvStep<T(!new)>(s: State<T>, a: Action<T>)
    requires Inv(s) && Enabled(s, a)
    ensures Inv(Apply(s, a))
  {
    TestsExact(s);
    NextMod(|s.pushed|);
    NextMod(|s.popped|);
    if a == WriteSlot {
      forall i | |s.popped| <= i < |s.pushed| ensures i % IO_Q_SIZE != s.tail { SlotsApart(i, |s.pushed|); }
    }
  }

  ghost predicate Valid<T(!new)>(s: State<T>, acts: seq<Action<T>>)
    decreases |acts|
  {
    acts == [] || (Enabled(s, acts[0]) && Valid(Apply(s, acts[0]), acts[1..]))
  }

  ghost function Run<T(!new)>(s: State<T>, acts: seq<Action<T>>): State<T>
    requires Valid(s, acts)
    decreases |acts|
  {
    if acts == [] then s else Run(Apply(s, acts[0]), acts[1..])
  }

  lemma {:induction false} RunKeepsInv<T(!new)>(s: State<T>, acts: seq<Action<T>>)
    requires Inv(s) && Valid(s, acts)
    ensures Inv(Run(s, acts))
    decreases |acts|
  {
    hide Inv, Enabled, Apply;
    if acts != [] {
      InvStep(s, acts[0]);
      RunKeepsInv(Apply(s, acts[0]), acts[1..]);
    }
  }

  ghost predicate Reachable<T(!new)>(s: State<T>) {
    exists slots: seq<T>, acts: seq<Action<T>> ::
      |slots| == IO_Q_SIZE && Valid(Init(slots), acts) && Run(Init(slots), acts) == s
  }

  lemma ReachableInv<T(!new)>(s: State<T>)
    requires Reachable(s)
    ensures Inv(s)
  {
    hide Inv, Valid, Run;
    var slots: seq<T>, acts: seq<Action<T>> :| |slots| == IO_Q_SIZE && Valid(Init(slots), acts) && Run(Init(slots), acts) == s;
    assert Inv(Init(slots)) by { InitInv(slots); }
    RunKeepsInv(Init(slots), acts);
  }

  lemma InitInv<T(!new)>(slots: seq<T>)
    requires |slots| == IO_Q_SIZE
    ensures Inv(Init(slots))
  {
  }

  /** What comes out is what went in, in order. */
  lemma PopsArePrefixOfPushes<T(!new)>(s: State<T>)
    requires Reachable(s)
    ensures s.popped <= s.pushed
    ensures s.consumer.SlotRead? || s.consumer.HeadStored? ==>
      var n := if s.consumer.SlotRead? then |s.popped| else |s.popped| - 1; 0 <= n < |s.pushed| && s.consumer.op == s.pushed[n]
  {
    hide Reachable;
    ReachableInv(s);
  }

  /** The slot the producer writes holds nothing the consumer has still to read. */
  lemma NoUnreadSlotOverwritten<T(!new)>(s: State<T>, i: nat)
    requires Reachable(s) && Enabled(s, WriteSlot) && |s.popped| <= i < |s.pushed|
    ensures s.tail != i % IO_Q_SIZE && |Apply(s, WriteSlot).slots| == IO_Q_SIZE
    ensures Apply(s, WriteSlot).slots[i % IO_Q_SIZE] == s.pushed[i]
  {
    hide Reachable;
    ReachableInv(s);
    SlotsApart(i, |s.pushed|);
  }

  /** The semaphore is never more than one off, never overflows, and is exact at rest. */
  lemma SemaphoreCounts<T(!new)>(s: State<T>)
    requires Reachable(s)
    ensures s.count + (if s.producer.TailStored? then 1 else 0) == Length(s) + (if s.consumer.HeadStored? then 1 else 0)
    ensures s.count <= IO_Q_SIZE
    ensures s.producer.ProducerIdle? && s.consumer.ConsumerIdle? ==> s.count == Length(s)
  {
    hide Reachable;
    ReachableInv(s);
  }

  /** The two sides never wait for each other; when both are in the middle of something, one of
      them can take its next step. */
  lemma NeverBothStuck<T(!new)>(s: State<T>)
    requires Reachable(s)
    ensures !(ProducerSpins(s) && ConsumerBlocked(s))
    ensures ConsumerBlocked(s) ==> Enabled(s, WriteEventfd)
    ensures ProducerSpins(s) ==> exists a :: (a == SeeOp || a == ReadSlot || a == StoreHead || a == ReadEventfd) && Enabled(s, a)
  {
    hide Reachable;
    ReachableInv(s);
    TestsExact(s);
    if ProducerSpins(s) {
      match s.consumer
      case ConsumerIdle => assert Enabled(s, SeeOp);
      case NotEmpty => assert Enabled(s, ReadSlot);
      case SlotRead(_) => assert Enabled(s, StoreHead);
      case HeadStored(_) => assert Enabled(s, ReadEventfd);
    }
  }

  lemma {:induction false} RunAppend<T(!new)>(s: State<T>, acts: seq<Action<T>>, a: Action<T>)
    requires Valid(s, acts) && Enabled(Run(s, acts), a)
    ensures Valid(s, acts + [a]) && Run(s, acts + [a]) == Apply(Run(s, acts), a)
    decreases |acts|
  {
    hide Enabled, Apply;
    if acts == [] {
      assert [a][1..] == [];
      assert acts + [a] == [a];
    } else {
      assert (acts + [a])[1..] == acts[1..] + [a];
      RunAppend(Apply(s, acts[0]), acts[1..], a);
    }
  }

  // ---------------------------------------------------------------- the code

  class Queue<T(!new)> {
    var head: nat
    var tail: nat
    var eventfd: nat
    const q: array<T>
    ghost var slots0: seq<T>
    ghost var trace: seq<Action<T>>
    ghost var s: State<T>

    /** The fields are those of the state that the trace leads to. */
    ghost predicate Consistent()
      reads this, q
    {
      && |slots0| == IO_Q_SIZE == q.Length
      && Valid(Init(slots0), trace) && Run(Init(slots0), trace) == s && Inv(s)
      && s.head == head && s.tail == tail && s.count == eventfd && s.slots == q[..]
    }

    constructor NewIoQueue(inv: T)
      ensures Consistent() && s == Init(slots0) && fresh(q)
    {
      q := new T[IO_Q_SIZE](_ => inv);
      head, tail, eventfd := 0, 0, 0;
      new;
      slots0 := q[..];
      trace := [];
      s := Init(slots0);
      InitInv(slots0);
    }

    ghost method Did(a: Action<T>)
      requires |slots0| == IO_Q_SIZE == q.Length && Enabled(s, a)
      requires Valid(Init(slots0), trace) && Run(Init(slots0), trace) == s && Inv(s)
      requires var t := Apply(s, a); t.head == head && t.tail == tail && t.count == eventfd && t.slots == q[..]
      modifies this`trace, this`s
      ensures Consistent() && s == Apply(old(s), a) && trace == old(trace) + [a]
    {
      hide Inv, Valid, Run;
      InvStep(s, a);
      RunAppend(Init(slots0), trace, a);
      trace, s := trace + [a], Apply(s, a);
    }

    /** Once there is room (until then the source spins): write the slot, then the tail, then
        wake the I/O thread. */
    method Push(op: T)
      requires Consistent() && s.producer.ProducerIdle? && (tail + 1) % IO_Q_SIZE != head
      modifies this, q
      ensures Consistent() && s.pushed == old(s).pushed + [op] && s.popped == old(s).popped
      ensures s.producer.ProducerIdle? && s.consumer == old(s).consumer && eventfd == old(eventfd) + 1 && head == old(head)
      ensures trace == old(trace) + [StartPush(op), SeeRoom, WriteSlot, StoreTail, WriteEventfd]
    {
      hide Inv, Valid, Run;
      InFrame(s);
      var t := (tail + 1) % IO_Q_SIZE;
      Did(StartPush(op));
      assert t != head;
      Did(SeeRoom);
      q[tail] := op;
      Did(WriteSlot);
      tail := t;
      Did(StoreTail);
      eventfd := eventfd + 1;
      Did(WriteEventfd);
    }

    /** The oldest operation, or none, at any moment of the producer's push; the eventfd is read once
        for each operation taken, and until it is positive that read waits. */
    method Pop() returns (r: Option<T>)
      requires Consistent() && s.consumer.ConsumerIdle? && (head != tail ==> eventfd > 0)
      modifies this
      ensures Consistent() && s.pushed == old(s).pushed && s.consumer.ConsumerIdle? && s.producer == old(s).producer
      ensures r == None <==> old(s).popped == old(s).pushed
      ensures r == None ==> trace == old(trace) && s == old(s)
      ensures r.Some? ==>
        && |old(s).popped| < |s.pushed| && r.value == s.pushed[|old(s).popped|]
        && s.popped == old(s).popped + [r.value]
        && trace == old(trace) + [SeeOp, ReadSlot, StoreHead, ReadEventfd]
    {
      hide Valid, Run;
      InFrame(s);
      TestsExact(s);
      if head == tail {
        return None;
      }
      hide Inv;
      Did(SeeOp);
      var ret := q[head];
      Did(ReadSlot);
      TakenInOrder(s);
      head := (head + 1) % IO_Q_SIZE;
      Did(StoreHead);
      eventfd := eventfd - 1;
      Did(ReadEventfd);
      r := Some(ret);
    }
  }

  lemma InFrame<T(!new)>(s: State<T>)
    requires Inv(s)
    ensures s.head < IO_Q_SIZE && s.tail < IO_Q_SIZE && |s.slots| == IO_Q_SIZE
  {
  }

  lemma TakenInOrder<T(!new)>(s: State<T>)
    requires Inv(s) && s.consumer.SlotRead?
    ensures |s.popped| < |s.pushed| && s.consumer.op == s.pushed[|s.popped|]
  {
  }
}
