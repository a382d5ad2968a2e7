/**
 The deque structure itself: the buffers and pointers of deque.h, with the routines that
 access them, one step of the protocol at a time.  Every step is recorded in `trace`; the
 invariant ties the memory to the state the protocol reaches by that trace, so each routine
 is proved to perform exactly the atomic steps it lists, and the assertions it makes about
 its pointers hold because the protocol's invariant holds.
*/
module TheDeque {
  import opened TheProtocol

  /** What the routines below need to know about the memory, out of the protocol's invariant. */
  lemma InvFacts(s: State)
    requires Inv(s)
    ensures s.ptr.head <= Top(s)
    ensures s.ptr.exc == s.ptr.head + (if s.thief in {ExcRaised, SawTail, Committed, Failed} then 1 else 0)
    ensures s.owner != OrphanHeadReset ==> s.fibers.head <= s.fibers.tail
    ensures (s.owner == TailLowered && s.ptr.tail >= s.ptr.exc) || s.owner == SlowKept ==>
      s.open != [] && s.ptr.tail in s.slots && s.slots[s.ptr.tail] == Last(s.open)
    ensures s.thief == Committed ==> s.ptr.head in s.slots && s.ptr.head < Top(s)
    ensures s.owner.FiberPending? ==>
      && s.fibers.tail - 1 >= s.fibers.head && s.fibers.tail - 1 in s.fibers.slots
      && s.fibers.slots[s.fibers.tail - 1] == s.owner.fiber
    ensures s.thief.HeadAdvanced? && s.thief.frame.isFuture ==>
      && s.fibers.head < s.fibers.tail && s.fibers.head in s.fibers.slots
      && s.fibers.slots[s.fibers.head] == s.thief.frame.fiber
    ensures Drained(s.owner) ==> !s.thief.HeadAdvanced?
    ensures s.lock == ByOwner <==> OwnerHasLock(s.owner)
  {
    ReadyFrames(s);
    ReadyFibers(s);
  }

  /** Where the owner stands once it has its youngest frame back. */
  function AfterReturn(frame: Frame): OwnerPc {
    if frame.isFuture then FiberPending(frame.fiber) else Working
  }

  /** The steps that write nothing to the two deques. */
  predicate LeavesMemory(a: Action) {
    a in {CheckExc, LookAtTail, LookAtProtectedTail, TakeOwnLock, TestStolen, DropOwnLock, ReadFiber}
  }

  lemma MemoryKept(s: State, a: Action)
    requires Enabled(s, a) && Ready(s, a) && LeavesMemory(a)
    ensures Fits(s, a)
    ensures var t := Apply(s, a);
      && t.ptr == s.ptr && t.fibers == s.fibers && t.slots == s.slots && t.limit == s.limit && Top(t) <= Top(s)
      && (t.owner.FrameWritten? ==> t.owner == s.owner) && (s.owner == OrphanHeadReset ==> t.owner == s.owner)
  {
  }

  /** The steps that write T, and those that write the tail of the fiber deque. */
  predicate StoresTail(s: State, a: Action, t: int) {
    (a in {PublishFrame, RestoreTail} && t == s.ptr.tail + 1) || (a in {LowerTail, PopTailLocked} && t == s.ptr.tail - 1)
  }

  predicate StoresFiberTail(s: State, a: Action, t: int) {
    (a == PublishFiber && t == s.fibers.tail + 1) || (a == PopFiber && t == s.fibers.tail - 1) || (a == ResetFiberTail && t == 0)
  }

  lemma TailStored(s: State, a: Action, t: int)
    requires Enabled(s, a) && Ready(s, a) && StoresTail(s, a, t)
    ensures Fits(s, a) && s.owner != OrphanHeadReset && Apply(s, a).owner != OrphanHeadReset && !Apply(s, a).owner.FrameWritten?
    ensures var n := Apply(s, a);
      && n.ptr == s.ptr.(tail := t) && n.fibers == s.fibers && n.slots == s.slots && n.limit == s.limit
      && if a == PublishFrame then s.owner.FrameWritten? && Top(n) == s.ptr.tail + 1 else Top(n) == Top(s)
  {
  }

  lemma FiberTailStored(s: State, a: Action, t: int)
    requires Enabled(s, a) && Ready(s, a) && StoresFiberTail(s, a, t)
    ensures a != PublishFiber ==> Fits(s, a)
    ensures (a == PopFiber ==> s.owner != OrphanHeadReset) && Apply(s, a).owner != OrphanHeadReset && !Apply(s, a).owner.FrameWritten?
    ensures var n := Apply(s, a);
      n.ptr == s.ptr && n.fibers == s.fibers.(tail := t) && n.slots == s.slots && n.limit == s.limit && Top(n) == Top(s)
  {
  }

  lemma PushedFrame(s: State, m: State, t: State, f: Frame)
    requires Took(s, WriteFrame(f.isFuture), m) && m.owner == FrameWritten(f)
    ensures Enabled(m, PublishFrame) && m.ptr == s.ptr && m.fibers == s.fibers
    ensures Took(m, PublishFrame, t) ==>
      t.owner == Working && t.open == s.open + [f] && t.ptr == s.ptr.(tail := s.ptr.tail + 1) && t.fibers == s.fibers
  {
  }

  /** The owner that pops under the lock always wins. */
  lemma PopUnderLock(s: State)
    requires Inv(s) && Enabled(s, PopTailLocked)
    ensures var m := Apply(s, PopTailLocked);
      && m.owner == SlowKept && Enabled(m, DropOwnLock) && m.ptr == s.ptr.(tail := s.ptr.tail - 1) && m.open == s.open
      && (Ready(m, DropOwnLock) ==> s.open != [] && var t := Apply(m, DropOwnLock);
            t.owner == AfterReturn(Last(s.open)) && t.lock == Free && t.log.popped == s.log.popped + [Last(s.open)])
  {
    hide Inv;
    InvFacts(s);
  }

  /** A step of the protocol. */
  ghost predicate Took(s: State, a: Action, t: State) {
    Enabled(s, a) && Ready(s, a) && t == Apply(s, a)
  }

  class Deque {
    var ltq: array<Frame>
    var head: int
    var tail: int
    var exc: int
    var protectedTail: int
    var fiberLtq: array<nat>
    var fiberHead: int
    var fiberTail: int
    ghost var trace: seq<Action>
    ghost var s: State

    ghost predicate Consistent()
      reads this, ltq, fiberLtq
    {
      && ltq.Length == s.limit == fiberLtq.Length
      && s.ptr == Pointers(head, tail, exc, protectedTail)
      && s.fibers.head == fiberHead && s.fibers.tail == fiberTail
      && (forall k :: k in s.slots && 0 <= k < ltq.Length ==> ltq[k] == s.slots[k])
      && (forall k :: k in s.fibers.slots && 0 <= k < fiberLtq.Length ==> fiberLtq[k] == s.fibers.slots[k])
      && 0 <= head && 0 <= fiberHead
      && Top(s) <= s.limit && (s.owner.FrameWritten? ==> s.ptr.tail < s.limit)
      && (s.owner != OrphanHeadReset ==> fiberTail <= s.limit)
      && TheProtocol.Valid(Init(s.limit), trace) && Run(Init(s.limit), trace) == s
      && Inv(s)
    }

    /** The bookkeeping of one memory access. */
    ghost method Did(a: Action)
      requires TheProtocol.Valid(Init(s.limit), trace) && Run(Init(s.limit), trace) == s && Inv(s) && Enabled(s, a) && Fits(s, a)
      modifies this`trace, this`s
      ensures Took(old(s), a, s) && s.limit == old(s).limit && Inv(s)
      ensures trace == old(trace) + [a]
      ensures TheProtocol.Valid(Init(s.limit), trace) && Run(Init(s.limit), trace) == s
    {
      hide Inv, TheProtocol.Valid, Run;
      InvStep(s, a);
      RunAppend(Init(s.limit), trace, a);
      trace, s := trace + [a], Apply(s, a);
    }

    constructor DequeInit(ltqsize: nat)
      ensures Consistent() && fresh(ltq) && fresh(fiberLtq) && s == Init(ltqsize) && trace == []
    {
      ltq := new Frame[ltqsize](_ => Frame(0, false, 0));
      fiberLtq := new nat[ltqsize](_ => 0);
      head, tail, exc, protectedTail := 0, 0, 0, ltqsize;
      fiberHead, fiberTail := 0, 0;
      trace := [];
      s := Init(ltqsize);
      new;
      InitInv(ltqsize);
    }

    // ------------------------------------------------------------ single accesses

    /** A read, or a change of control, that leaves the memory alone. */
    ghost method Looked(a: Action)
      requires Consistent() && Enabled(s, a)
      requires LeavesMemory(a)
      modifies this`trace, this`s
      ensures Consistent() && trace == old(trace) + [a] && Took(old(s), a, s)
    {
      hide Inv, TheProtocol.Valid, Run, Enabled, Ready, Apply, Top, LeavesMemory;
      InvStep(s, a);
      MemoryKept(s, a);
      Did(a);
    }

    method StoreFiber(t: int, fiber: nat)
      requires Consistent() && s.owner == Working && t == fiberTail < s.limit
      modifies fiberLtq, this`trace, this`s
      ensures Consistent() && trace == old(trace) + [WriteFiber(fiber)] && Took(old(s), WriteFiber(fiber), s)
    {
      hide Inv, TheProtocol.Valid, Run;
      InvFacts(s);
      fiberLtq[t] := fiber;
      Did(WriteFiber(fiber));
    }

    method StoreFiberTail(t: int, ghost a: Action)
      requires Consistent() && Enabled(s, a) && Fits(s, a)
      requires StoresFiberTail(s, a, t)
      modifies this`fiberTail, this`trace, this`s
      ensures Consistent() && trace == old(trace) + [a] && Took(old(s), a, s)
    {
      hide Inv, TheProtocol.Valid, Run;
      InvFacts(s);
      InvStep(s, a);
      FiberTailStored(s, a, t);
      assert a == PublishFiber ==> t <= s.limit;
      hide Enabled, Ready, Apply, Fits, Top, StoresFiberTail;
      fiberTail := t;
      Did(a);
    }

    method StoreFiberHead(h: int, ghost a: Action)
      requires Consistent() && Enabled(s, a)
      requires (a == ResetFiberHead && h == 0) || (a == AdvanceFiberHead && s.thief.frame.isFuture && h == fiberHead + 1)
      modifies this`fiberHead, this`trace, this`s
      ensures Consistent() && trace == old(trace) + [a] && Took(old(s), a, s)
    {
      hide Inv, TheProtocol.Valid, Run;
      InvFacts(s);
      fiberHead := h;
      Did(a);
    }

    method StoreFrame(t: int, parent: Frame)
      requires Consistent() && t == tail < s.limit && parent.id == |s.log.pushed|
      requires if parent.isFuture then s.owner == FiberQueued(parent.fiber) else s.owner == Working && parent.fiber == 0
      modifies ltq, this`trace, this`s
      ensures Consistent() && trace == old(trace) + [WriteFrame(parent.isFuture)]
      ensures Took(old(s), WriteFrame(parent.isFuture), s) && s.owner == FrameWritten(parent) && 0 <= t && ltq[t] == parent
    {
      hide Inv, TheProtocol.Valid, Run;
      InvFacts(s);
      ltq[t] := parent;
      Did(WriteFrame(parent.isFuture));
    }

    method StoreTail(t: int, ghost a: Action)
      requires Consistent() && Enabled(s, a)
      requires StoresTail(s, a, t)
      modifies this`tail, this`trace, this`s
      ensures Consistent() && trace == old(trace) + [a] && Took(old(s), a, s)
    {
      hide Inv, TheProtocol.Valid, Run;
      InvStep(s, a);
      TailStored(s, a, t);
      hide Enabled, Ready, Apply, Fits, Top, StoresTail;
      tail := t;
      Did(a);
    }

    method StoreExc(e: int, ghost a: Action)
      requires Consistent() && Enabled(s, a)
      requires (a == RaiseExc && e == exc + 1) || (a == LowerExc && e == exc - 1) || (a == ResetExc && e == head)
      modifies this`exc, this`trace, this`s
      ensures Consistent() && trace == old(trace) + [a] && Took(old(s), a, s)
    {
      hide Inv, TheProtocol.Valid, Run;
      exc := e;
      Did(a);
    }

    method StoreHead(h: int)
      requires Consistent() && Enabled(s, AdvanceHead) && h == head + 1
      modifies this`head, this`trace, this`s
      ensures Consistent() && trace == old(trace) + [AdvanceHead] && Took(old(s), AdvanceHead, s)
    {
      hide Inv, TheProtocol.Valid, Run;
      InvFacts(s);
      head := h;
      Did(AdvanceHead);
    }

    // ------------------------------------------------------------ the owner

    method EnqueueFutureFiber(fiber: nat)
      requires Consistent() && s.owner == Working && fiberTail + 1 < s.limit
      modifies this, fiberLtq
      ensures Consistent() && ltq == old(ltq) && fiberLtq == old(fiberLtq)
      ensures trace == old(trace) + [WriteFiber(fiber), PublishFiber] && s.owner == FiberQueued(fiber)
      ensures fiberTail == old(fiberTail) + 1 && fiberHead == old(fiberHead)
      ensures s.fibers.slots == old(s).fibers.slots[old(fiberTail) := fiber]
      ensures tail == old(tail) && s.limit == old(s).limit && s.open == old(s).open && s.log == old(s).log
    {
      hide Inv, TheProtocol.Valid, Run;
      var t := fiberTail;
      StoreFiber(t, fiber);
      StoreFiberTail(t + 1, PublishFiber);
    }

    /** `parent` is the continuation being pushed; a future parent runs on the fiber just enqueued. */
    method Detach(parent: Frame)
      requires Consistent() && tail < s.limit && parent.id == |s.log.pushed|
      requires if parent.isFuture then s.owner == FiberQueued(parent.fiber) else s.owner == Working && parent.fiber == 0
      modifies this, ltq
      ensures Consistent() && ltq == old(ltq) && fiberLtq == old(fiberLtq)
      ensures trace == old(trace) + [WriteFrame(parent.isFuture), PublishFrame] && s.owner == Working
      ensures tail == old(tail) + 1 && 0 < tail && ltq[tail - 1] == parent && s.open == old(s).open + [parent]
      ensures fiberTail == old(fiberTail) && fiberHead == old(fiberHead)
      ensures head == old(head) && exc == old(exc)
    {
      hide Inv, TheProtocol.Valid, Run;
      var t := tail;
      StoreFrame(t, parent);
      assert StoresTail(s, PublishFrame, t + 1);
      hide Enabled, Ready, Apply, Took, Top, StoresTail, Deque.Consistent;
      ghost var m := s;
      PushedFrame(old(s), m, m, parent);
      StoreTail(t + 1, PublishFrame);
      PushedFrame(old(s), m, s, parent);
    }

    /** True when the owner must go through the exception check. */
    method UndoDetach() returns (failed: bool)
      requires Consistent() && s.owner == Working
      modifies this
      ensures Consistent() && ltq == old(ltq) && fiberLtq == old(fiberLtq)
      ensures trace == old(trace) + [LowerTail, CheckExc]
      ensures tail == old(tail) - 1 && failed == (tail < exc) && exc == old(exc) && head == old(head)
      ensures failed ==> s.owner == SlowWait && s.open == old(s).open && s.log == old(s).log
      ensures s.lock == old(s).lock && fiberTail == old(fiberTail)
      ensures !failed ==> 0 <= tail < ltq.Length && old(s).open != [] && ltq[tail] == Last(old(s).open)
      ensures !failed ==> s.log.popped == old(s).log.popped + [ltq[tail]]
      ensures !failed ==> s.owner == AfterReturn(Last(old(s).open))
    {
      hide Inv, TheProtocol.Valid, Run;
      var t := tail - 1;
      StoreTail(t, LowerTail);
      failed := t < exc;
      InvFacts(s);
      Looked(CheckExc);
    }

    /** The slow path, once the lock is free.  When the frame was stolen the whole deque was. */
    method ExceptionCheck() returns (stolen: bool)
      requires Consistent() && s.owner == SlowWait && s.lock == Free
      modifies this
      ensures Consistent() && ltq == old(ltq) && fiberLtq == old(fiberLtq)
      ensures stolen == (old(head) == old(tail) + 1) && exc == head == old(exc) == old(head)
      ensures !stolen ==> trace == old(trace) + [TakeOwnLock, ResetExc, TestStolen, DropOwnLock]
      ensures !stolen ==> tail == old(tail) && old(s).open != [] && s.log.popped == old(s).log.popped + [Last(old(s).open)]
      ensures !stolen ==> s.owner == AfterReturn(Last(old(s).open)) && fiberTail == old(fiberTail)
      ensures stolen ==>
        trace == old(trace) + [TakeOwnLock, ResetExc, TestStolen, RestoreTail, DropOwnLock, ResetFiberHead, ResetFiberTail]
      ensures stolen ==> tail == head && fiberHead == fiberTail == 0 && s.owner == Idle && s.log.popped == old(s).log.popped
    {
      hide Inv, TheProtocol.Valid, Run;
      stolen := ReadUnderLock();
      if stolen {
        UndoDecrement();
        ResetFutureFiberDeque();
      } else {
        Looked(DropOwnLock);
      }
    }

    /** Take the lock, put exc back to head, and see whether the frame at tail is still there. */
    method ReadUnderLock() returns (stolen: bool)
      requires Consistent() && s.owner == SlowWait && s.lock == Free
      modifies this`exc, this`trace, this`s
      ensures Consistent() && trace == old(trace) + [TakeOwnLock, ResetExc, TestStolen]
      ensures stolen == (head == tail + 1) && exc == head == old(exc)
      ensures s.owner == (if stolen then SlowStolen else SlowKept)
      ensures s.open == old(s).open && s.log == old(s).log
    {
      hide Inv, TheProtocol.Valid, Run;
      Looked(TakeOwnLock);
      InvFacts(s);
      StoreExc(head, ResetExc);
      stolen := !(head < tail + 1);
      InvFacts(s);
      Looked(TestStolen);
    }

    /** Reverse the decrement of undo-detach, which leaves the deque empty, and drop the lock. */
    method UndoDecrement()
      requires Consistent() && s.owner == SlowStolen && tail + 1 == head
      modifies this`tail, this`trace, this`s
      ensures Consistent() && trace == old(trace) + [RestoreTail, DropOwnLock]
      ensures tail == head && s.owner == Orphaned && s.log == old(s).log
    {
      hide Inv, TheProtocol.Valid, Run;
      StoreTail(tail + 1, RestoreTail);
      Looked(DropOwnLock);
    }

    method ResetFutureFiberDeque()
      requires Consistent() && s.owner == Orphaned
      modifies this`fiberHead, this`fiberTail, this`trace, this`s
      ensures Consistent() && trace == old(trace) + [ResetFiberHead, ResetFiberTail]
      ensures fiberHead == fiberTail == 0 && s.owner == Idle && s.log == old(s).log
    {
      hide Inv, TheProtocol.Valid, Run;
      StoreFiberHead(0, ResetFiberHead);
      StoreFiberTail(0, ResetFiberTail);
    }

    /** The fiber of the future that has just returned; no check, no lock. */
    method PopTailFutureFiber() returns (fiber: nat)
      requires Consistent() && s.owner.FiberPending?
      modifies this`fiberTail, this`trace, this`s
      ensures Consistent() && trace == old(trace) + [PopFiber] && s.owner == Working
      ensures fiber == old(s).owner.fiber && fiberTail == old(fiberTail) - 1 && fiberTail >= fiberHead
      ensures s.log.popped == old(s).log.popped
    {
      hide Inv, TheProtocol.Valid, Run;
      InvFacts(s);
      var t := fiberTail - 1;
      assert t >= fiberHead;
      StoreFiberTail(t, PopFiber);
      fiber := fiberLtq[t];
    }

    /** The pop of an exceptional return, under the lock from the look at head to the write of tail:
        it takes the owner's youngest frame whenever the deque is not empty. */
    method PopTail() returns (got: bool, frame: Frame)
      requires Consistent() && s.owner == Working && s.lock == Free
      modifies this`tail, this`trace, this`s
      ensures Consistent() && got == (old(head) < old(tail))
      ensures got ==> tail == old(tail) - 1 && 0 <= tail < ltq.Length && frame == ltq[tail]
      ensures got ==> old(s).open != [] && frame == Last(old(s).open) && s.log.popped == old(s).log.popped + [frame]
      ensures got ==> trace == old(trace) + [PopTailLocked, DropOwnLock] && s.owner == AfterReturn(frame) && s.lock == Free
      ensures !got ==> tail == old(tail) && trace == old(trace) && s == old(s)
    {
      hide Inv, TheProtocol.Valid, Run;
      got, frame := head < tail, Frame(0, false, 0);
      if got {
        assert Enabled(s, PopTailLocked);
        hide Enabled, Ready, Apply, Top;
        PopUnderLock(s);
        frame := TakeTail();
        hide Deque.Consistent;
        Looked(DropOwnLock);
      }
    }

    method TakeTail() returns (frame: Frame)
      requires Consistent() && Enabled(s, PopTailLocked)
      modifies this`tail, this`trace, this`s
      ensures Consistent() && trace == old(trace) + [PopTailLocked] && Took(old(s), PopTailLocked, s)
      ensures tail == old(tail) - 1 && 0 <= tail < ltq.Length
      ensures old(s).open != [] && frame == ltq[tail] == Last(old(s).open)
    {
      hide Inv, TheProtocol.Valid, Run;
      PopUnderLock(s);
      hide Enabled, Ready, Apply;
      var t := tail - 1;
      StoreTail(t, PopTailLocked);
      InvFacts(s);
      frame := ltq[t];
    }

    // ------------------------------------------------------------ futures

    /** Spawn a future on a fiber of its own: the fiber is queued before its parent's frame is pushed. */
    method SpawnFuture(parent: Frame)
      requires Consistent() && s.owner == Working && fiberTail + 1 < s.limit && tail < s.limit
      requires parent.isFuture && parent.id == |s.log.pushed|
      modifies this, ltq, fiberLtq
      ensures Consistent() && ltq == old(ltq) && fiberLtq == old(fiberLtq) && s.owner == Working
      ensures trace == old(trace) + [WriteFiber(parent.fiber), PublishFiber, WriteFrame(true), PublishFrame]
      ensures fiberTail == old(fiberTail) + 1 && tail == old(tail) + 1
      ensures s.open == old(s).open + [parent]
    {
      hide Inv, TheProtocol.Valid, Run;
      EnqueueFutureFiber(parent.fiber);
      Detach(parent);
    }

    /** The future's strand returns: it wins its parent back and takes its own fiber off the queue, or,
        when the parent was stolen, the thief has that fiber and this deque is empty. */
    method LeaveFutureFrame() returns (won: bool, fiber: nat)
      requires Consistent() && s.owner == Working && s.open != [] && Last(s.open).isFuture
      requires tail - 1 < exc ==> s.lock == Free
      modifies this
      ensures Consistent() && ltq == old(ltq) && fiberLtq == old(fiberLtq)
      ensures won ==> s.owner == Working && fiber == Last(old(s).open).fiber && fiberTail == old(fiberTail) - 1
      ensures won ==> s.log.popped == old(s).log.popped + [Last(old(s).open)]
      ensures !won ==> s.owner == Idle && fiberHead == fiberTail == 0 && tail == head && s.log.popped == old(s).log.popped
    {
      hide Inv, TheProtocol.Valid, Run;
      fiber := 0;
      var failed := UndoDetach();
      if failed {
        var stolen := ExceptionCheck();
        if stolen {
          return false, fiber;
        }
      }
      won := true;
      fiber := PopTailFutureFiber();
    }

    // ------------------------------------------------------------ a thief with the lock

    method IncrementE()
      requires Consistent() && s.thief == Acquired
      modifies this`exc, this`trace, this`s
      ensures Consistent() && Took(old(s), RaiseExc, s) && trace == old(trace) + [RaiseExc] && exc == old(exc) + 1 == head + 1
    {
      hide Inv, TheProtocol.Valid, Run;
      InvFacts(s);
      StoreExc(exc + 1, RaiseExc);
    }

    method DecrementE()
      requires Consistent() && s.thief == Failed
      modifies this`exc, this`trace, this`s
      ensures Consistent() && Took(old(s), LowerExc, s) && trace == old(trace) + [LowerExc] && exc == old(exc) - 1 == head
    {
      hide Inv, TheProtocol.Valid, Run;
      InvFacts(s);
      StoreExc(exc - 1, LowerExc);
    }

    /** Two reads of the owner's pointers, the second only if the first succeeds. */
    method CanStealFrom() returns (can: bool)
      requires Consistent() && s.thief == ExcRaised
      modifies this`trace, this`s
      ensures Consistent() && can == (head < tail && head < protectedTail)
      ensures s.thief == (if can then Committed else Failed) && s.lock == old(s).lock && s.log == old(s).log
      ensures trace == old(trace) + (if head < tail then [LookAtTail, LookAtProtectedTail] else [LookAtTail])
    {
      hide Inv, TheProtocol.Valid, Run;
      can := head < tail;
      Looked(LookAtTail);
      if can {
        can := head < protectedTail;
        Looked(LookAtProtectedTail);
      }
    }

    /** With the victim's lock held: reserve the head frame, or leave exc as it was. */
    method DekkerProtocol() returns (ok: bool)
      requires Consistent() && s.thief == Acquired
      modifies this`exc, this`trace, this`s
      ensures Consistent() && ok == (head < tail && head < protectedTail)
      ensures if ok then s.thief == Committed && exc == head + 1 else s.thief == Releasing && exc == head == old(exc)
      ensures ok ==> trace == old(trace) + [RaiseExc, LookAtTail, LookAtProtectedTail]
      ensures s.lock == old(s).lock && s.log == old(s).log
    {
      hide Inv, TheProtocol.Valid, Run;
      IncrementE();
      ok := CanStealFrom();
      if !ok {
        DecrementE();
      }
    }

    /** Take the head frame and, for a future parent, the fiber its future runs on. */
    method DetachForSteal() returns (frame: Frame, fiber: nat)
      requires Consistent() && s.thief == Committed
      modifies this`head, this`fiberHead, this`trace, this`s
      ensures Consistent()
      ensures 0 <= old(head) < ltq.Length && frame == ltq[old(head)] && head == old(head) + 1 == exc
      ensures s.lock == old(s).lock && s.lock.ByThief? && s.thief == Releasing
      ensures s.log.stolen == old(s).log.stolen + [Theft(frame, s.lock.thief)]
      ensures frame.isFuture ==> fiber == frame.fiber && fiberHead == old(fiberHead) + 1 <= fiberTail
      ensures !frame.isFuture ==> fiberHead == old(fiberHead)
      ensures trace == old(trace) + [AdvanceHead, AdvanceFiberHead] + (if frame.isFuture then [ReadFiber] else [])
    {
      hide Inv, TheProtocol.Valid, Run, Enabled, Ready, Apply, Took, Top, Deque.Consistent;
      frame := TakeHead();
      fiber := 0;
      if frame.isFuture {
        fiber := PopHeadFutureFiber();
      } else {
        NoFiber();
      }
    }

    method TakeHead() returns (frame: Frame)
      requires Consistent() && s.thief == Committed
      modifies this`head, this`trace, this`s
      ensures Consistent() && trace == old(trace) + [AdvanceHead] && s.thief == HeadAdvanced(frame)
      ensures 0 <= old(head) < ltq.Length && frame == ltq[old(head)] && head == old(head) + 1 == exc
      ensures s.lock == old(s).lock && s.lock.ByThief? && s.log.stolen == old(s).log.stolen + [Theft(frame, s.lock.thief)]
    {
      hide Inv, TheProtocol.Valid, Run;
      InvFacts(s);
      var h := head;
      StoreHead(h + 1);
      frame := ltq[h];
    }

    /** The frame stolen has no fiber. */
    ghost method NoFiber()
      requires Consistent() && s.thief.HeadAdvanced? && !s.thief.frame.isFuture
      modifies this`trace, this`s
      ensures Consistent() && trace == old(trace) + [AdvanceFiberHead] && s.thief == Releasing
      ensures s.log.stolen == old(s).log.stolen && s.lock == old(s).lock
    {
      hide Inv, TheProtocol.Valid, Run;
      Did(AdvanceFiberHead);
    }

    method PopHeadFutureFiber() returns (fiber: nat)
      requires Consistent() && s.thief.HeadAdvanced? && s.thief.frame.isFuture
      modifies this`fiberHead, this`trace, this`s
      ensures Consistent() && trace == old(trace) + [AdvanceFiberHead, ReadFiber] && s.thief == Releasing
      ensures fiber == old(s).thief.frame.fiber && fiberHead == old(fiberHead) + 1 <= fiberTail
      ensures s.log.stolen == old(s).log.stolen && s.lock == old(s).lock
    {
      hide Inv, TheProtocol.Valid, Run;
      InvFacts(s);
      var h := fiberHead;
      assert h + 1 <= fiberTail;
      StoreFiberHead(h + 1, AdvanceFiberHead);
      fiber := fiberLtq[h];
      Looked(ReadFiber);
    }
  }
}
