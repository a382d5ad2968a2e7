/**
 The THE work-stealing protocol of one deque together with its parallel deque of
 future fibers, as a state machine over the memory accesses of the owner and of
 lock-serialised thieves (sequential consistency).  A step holds at most one access to a
 location that the other party may write, or read for a decision, at that moment.  Five
 steps hold further accesses, on which nobody can intrude: StartWork sets three pointers
 and PopTailLocked compares and lowers under the lock; AdvanceHead reads the slot it
 reserved; PopFiber and AdvanceFiberHead read the slot or the other index for their
 assertion, and `FibersAligned` gives the same answer at every moment of that step.

 The owner pushes and pops at T without a lock.  A thief holds the victim's lock,
 raises E, looks at T and at the protected tail, and either gives up (lowering E) or
 advances H.  The owner lowers T first and reads E second; when E > T it goes through
 the slow path under the lock.  The fiber deque is read and written with no check at
 all: each side relies on the frame protocol to keep it aligned.
*/
module TheProtocol {

  /** One detached continuation.  `id` is its position in the push history; `fiber`
      is the fiber its future runs on and means something only for a future parent. */
  datatype Frame = Frame(id: nat, isFuture: bool, fiber: nat)

  /** Where the owner stands between two of its memory accesses. */
  datatype OwnerPc =
    | Idle                          // in the scheduling loop, deque empty
    | Working                       // in user code
    | FiberWritten(fiber: nat)      // fiber slot written, fiber_tail not advanced yet
    | FiberQueued(fiber: nat)       // fiber enqueued, its parent frame not pushed yet
    | FrameWritten(frame: Frame)    // frame slot written, tail not advanced yet
    | TailLowered                   // undo-detach lowered tail, exc not read yet
    | SlowWait                      // saw exc > tail; waiting for the worker lock
    | SlowLocked                    // holds the lock
    | SlowReset                     // exc := head done
    | SlowStolen                    // decided "stolen"; tail still lowered
    | SlowRestored                  // tail raised again
    | SlowKept                      // decided "not stolen"
    | Orphaned                      // lock released, fiber deque not reset yet
    | OrphanHeadReset               // fiber_head reset, fiber_tail not yet
    | FiberPending(fiber: nat)      // won back a future parent; its fiber not popped yet
    | Suspended                     // the whole deque is suspended

  /** Where the thief that holds the lock stands. */
  datatype ThiefPc =
    | Absent
    | Acquired
    | ExcRaised                     // exc := exc + 1 done
    | SawTail                       // read head < tail
    | Committed                     // also read head < protected_tail: dekker returns 1
    | Failed                        // must lower exc
    | HeadAdvanced(frame: Frame)    // head := head + 1 and *h read
    | FiberClaimed(frame: Frame)    // fiber_head advanced, *h not read yet
    | Releasing

  datatype Lock = Free | ByOwner | ByThief(thief: nat)

  /** A successful steal: who took which frame, and the fiber it was given. */
  datatype Theft = Theft(frame: Frame, thief: nat)

  /** The shared pointers of the frame deque, as indices into its buffer. */
  datatype Pointers = Pointers(head: int, tail: int, exc: int, protectedTail: int)

  /** The fiber deque: indices and buffer. */
  datatype FiberQueue = FiberQueue(head: int, tail: int, slots: map<int, nat>)

  /** What has happened so far. */
  datatype Log = Log(
    pushed: seq<Frame>,      // every push, in order
    popped: seq<Frame>,      // frames the owner got back
    stolen: seq<Theft>,      // frames taken by thieves, in order
    returned: seq<(nat, nat)>,    // (fiber popped at the tail, fiber the owner is running on)
    handedOut: seq<(Frame, nat)>  // (stolen future parent, fiber popped at the head)
  )

  datatype State = State(
    limit: nat,
    ptr: Pointers,
    slots: map<int, Frame>,
    fibers: FiberQueue,
    lock: Lock,
    owner: OwnerPc,
    thief: ThiefPc,
    open: seq<Frame>,        // the owner's control stack: frames it detached and has not returned to
    log: Log
  )

  function Init(limit: nat): State {
    State(limit, Pointers(0, 0, 0, limit), map[], FiberQueue(0, 0, map[]), Free, Idle, Absent, [], Log([], [], [], [], []))
  }

  /** The single atomic steps. */
  datatype Action =
    // owner, no lock
    | StartWork | WriteFiber(fiber: nat) | PublishFiber
    | WriteFrame(isFuture: bool) | PublishFrame
    | LowerTail | CheckExc | PopFiber
    | SetProtectedTail(v: int) | GoIdle | SuspendDeque | ResumeDeque
    // owner, slow path
    | TakeOwnLock | ResetExc | TestStolen | RestoreTail | DropOwnLock | PopTailLocked
    | ResetFiberHead | ResetFiberTail
    // thief
    | Acquire(t: nat) | GiveUp | RaiseExc | LookAtTail | LookAtProtectedTail
    | LowerExc | AbortSteal | AdvanceHead | AdvanceFiberHead | ReadFiber | Release

  /** The owner lowered tail and has not settled the race for the top frame yet. */
  predicate Speculative(pc: OwnerPc) {
    pc in {TailLowered, SlowWait, SlowLocked, SlowReset, SlowStolen, SlowKept}
  }

  predicate OwnerHasLock(pc: OwnerPc) {
    pc in {SlowLocked, SlowReset, SlowStolen, SlowRestored, SlowKept}
  }

  /** The owner has nothing left to return to. */
  predicate Drained(pc: OwnerPc) {
    pc in {SlowStolen, SlowRestored, Orphaned, OrphanHeadReset, Idle}
  }

  /** One past the last frame that is logically still in the deque. */
  function Top(s: State): int {
    if Speculative(s.owner) then s.ptr.tail + 1 else s.ptr.tail
  }

  function Last(fs: seq<Frame>): Frame
    requires fs != []
  {
    fs[|fs| - 1]
  }

  /** When an action may happen: the control flow of its party and mutual exclusion.  An owner
      whose frames were all stolen learns of it when its strand returns (LowerTail); it goes idle
      by itself only in a frame that it resumed, with nothing detached. */
  predicate Enabled(s: State, a: Action) {
    match a
    case StartWork => s.owner == Idle && s.lock == Free
    case WriteFiber(_) => s.owner == Working
    case PublishFiber => s.owner.FiberWritten?
    case WriteFrame(isFuture) => if isFuture then s.owner.FiberQueued? else s.owner == Working
    case PublishFrame => s.owner.FrameWritten?
    case LowerTail => s.owner == Working
    case CheckExc => s.owner == TailLowered
    case PopFiber => s.owner.FiberPending?
    case SetProtectedTail(_) => s.owner == Working
    case GoIdle => s.owner == Working && s.open == [] && s.lock == Free
    case SuspendDeque => s.owner == Working && s.lock == Free
    case ResumeDeque => s.owner == Suspended && s.lock == Free
    case TakeOwnLock => s.owner == SlowWait && s.lock == Free
    case PopTailLocked => s.owner == Working && s.lock == Free && s.ptr.head < s.ptr.tail
    case ResetExc => s.owner == SlowLocked
    case TestStolen => s.owner == SlowReset
    case RestoreTail => s.owner == SlowStolen
    case DropOwnLock => s.owner == SlowRestored || s.owner == SlowKept
    case ResetFiberHead => s.owner == Orphaned
    case ResetFiberTail => s.owner == OrphanHeadReset
    case Acquire(_) => s.lock == Free
    case GiveUp => s.thief == Acquired
    case RaiseExc => s.thief == Acquired
    case LookAtTail => s.thief == ExcRaised
    case LookAtProtectedTail => s.thief == SawTail
    case LowerExc => s.thief == Failed
    case AbortSteal => s.thief == Committed
    case AdvanceHead => s.thief == Committed
    case AdvanceFiberHead => s.thief.HeadAdvanced?
    case ReadFiber => s.thief.FiberClaimed?
    case Release => s.thief == Releasing
  }

  /** The two assertions that a program can make fail, by spawning too deeply: before a push the
      tail of the frame deque, and after it that of the fiber deque, is below the limit. */
  predicate Fits(s: State, a: Action) {
    match a
    case WriteFrame(_) => s.ptr.tail < s.limit
    case PublishFiber => s.fibers.tail + 1 < s.limit
    case _ => true
  }

  /** What an action reads is there: a caller to return to, an initialised slot, a queue
      that does not underflow.  The code asserts it of both fiber pops and of the frame that is
      stolen, and takes the rest for granted; `AlwaysReady` proves it all. */
  predicate Ready(s: State, a: Action) {
    match a
    case CheckExc => s.ptr.tail >= s.ptr.exc ==> s.open != [] && s.ptr.tail in s.slots && s.slots[s.ptr.tail] == Last(s.open)
    case DropOwnLock => s.owner == SlowKept ==> s.open != [] && s.ptr.tail in s.slots && s.slots[s.ptr.tail] == Last(s.open)
    case PopFiber => s.fibers.tail - 1 >= s.fibers.head && s.fibers.tail - 1 in s.fibers.slots
    case AdvanceHead => s.lock.ByThief? && s.ptr.head in s.slots
    case AdvanceFiberHead => s.thief.HeadAdvanced? && s.thief.frame.isFuture ==> s.fibers.head + 1 <= s.fibers.tail
    case ReadFiber => s.fibers.head - 1 in s.fibers.slots
    case _ => true
  }

  /** The owner has its youngest frame back; a future parent still has a fiber to pop. */
  function Win(s: State): State
    requires s.open != []
  {
    var f := Last(s.open);
    s.(owner := if f.isFuture then FiberPending(f.fiber) else Working,
       open := s.open[..|s.open| - 1],
       log := s.log.(popped := s.log.popped + [f]))
  }

  predicate IsThiefs(a: Action) {
    a in {GiveUp, RaiseExc, LookAtTail, LookAtProtectedTail, LowerExc, AbortSteal, AdvanceHead, AdvanceFiberHead, ReadFiber, Release}
    || a.Acquire?
  }

  predicate IsSlowPath(a: Action) {
    a in {TakeOwnLock, ResetExc, TestStolen, RestoreTail, DropOwnLock, ResetFiberHead, ResetFiberTail, PopTailLocked}
  }

  /** The effect of one action. */
  function Apply(s: State, a: Action): State
    requires Enabled(s, a) && Ready(s, a)
  {
    if IsThiefs(a) then ApplyThiefs(s, a) else if IsSlowPath(a) then ApplySlow(s, a) else ApplyOwners(s, a)
  }

  /** The owner without the lock: spawn a future or a function, return from one. */
  function ApplyOwners(s: State, a: Action): State
    requires Enabled(s, a) && Ready(s, a) && !IsThiefs(a) && !IsSlowPath(a)
  {
    match a
    case StartWork => s.(owner := Working, ptr := s.ptr.(head := 0, tail := 0, exc := 0))
    case WriteFiber(f) => s.(owner := FiberWritten(f), fibers := s.fibers.(slots := s.fibers.slots[s.fibers.tail := f]))
    case PublishFiber => s.(owner := FiberQueued(s.owner.fiber), fibers := s.fibers.(tail := s.fibers.tail + 1))
    case WriteFrame(isFuture) =>
      var f := Frame(|s.log.pushed|, isFuture, if isFuture then s.owner.fiber else 0);
      s.(owner := FrameWritten(f), slots := s.slots[s.ptr.tail := f])
    case PublishFrame =>
      var f := s.owner.frame;
      s.(owner := Working, ptr := s.ptr.(tail := s.ptr.tail + 1), open := s.open + [f],
         log := s.log.(pushed := s.log.pushed + [f]))
    case LowerTail => s.(owner := TailLowered, ptr := s.ptr.(tail := s.ptr.tail - 1))
    case CheckExc => if s.ptr.tail < s.ptr.exc then s.(owner := SlowWait) else Win(s)
    case PopFiber =>
      s.(owner := Working, fibers := s.fibers.(tail := s.fibers.tail - 1),
         log := s.log.(returned := s.log.returned + [(s.fibers.slots[s.fibers.tail - 1], s.owner.fiber)]))
    case SetProtectedTail(v) => s.(ptr := s.ptr.(protectedTail := v))
    case GoIdle => s.(owner := Idle, open := [])
    case SuspendDeque => s.(owner := Suspended)
    case ResumeDeque => s.(owner := Working)
  }

  /** The owner with its lock: the slow path after a failed undo-detach, and the pop of an exceptional
      return, which lowers T and reads the slot with the lock held and so never loses the race. */
  function ApplySlow(s: State, a: Action): State
    requires Enabled(s, a) && Ready(s, a) && !IsThiefs(a) && IsSlowPath(a)
  {
    match a
    case TakeOwnLock => s.(owner := SlowLocked, lock := ByOwner)
    case PopTailLocked => s.(owner := SlowKept, lock := ByOwner, ptr := s.ptr.(tail := s.ptr.tail - 1))
    case ResetExc => s.(owner := SlowReset, ptr := s.ptr.(exc := s.ptr.head))
    case TestStolen => s.(owner := if !(s.ptr.head < s.ptr.tail + 1) then SlowStolen else SlowKept)
    case RestoreTail => s.(owner := SlowRestored, ptr := s.ptr.(tail := s.ptr.tail + 1))
    case DropOwnLock =>
      if s.owner == SlowRestored then s.(owner := Orphaned, lock := Free) else Win(s.(lock := Free))
    case ResetFiberHead => s.(owner := OrphanHeadReset, fibers := s.fibers.(head := 0))
    case ResetFiberTail => s.(owner := Idle, fibers := s.fibers.(tail := 0), open := [])
  }

  /** The thief that holds, or takes, the lock. */
  function ApplyThiefs(s: State, a: Action): State
    requires Enabled(s, a) && Ready(s, a) && IsThiefs(a)
  {
    match a
    case Acquire(t) => s.(lock := ByThief(t), thief := Acquired)
    case GiveUp => s.(thief := Releasing)
    case RaiseExc => s.(thief := ExcRaised, ptr := s.ptr.(exc := s.ptr.exc + 1))
    case LookAtTail => s.(thief := if s.ptr.head < s.ptr.tail then SawTail else Failed)
    case LookAtProtectedTail => s.(thief := if s.ptr.head < s.ptr.protectedTail then Committed else Failed)
    case LowerExc => s.(thief := Releasing, ptr := s.ptr.(exc := s.ptr.exc - 1))
    case AbortSteal => s.(thief := Failed)
    case AdvanceHead =>
      var f := s.slots[s.ptr.head];
      s.(thief := HeadAdvanced(f), ptr := s.ptr.(head := s.ptr.head + 1),
         log := s.log.(stolen := s.log.stolen + [Theft(f, s.lock.thief)]))
    case AdvanceFiberHead =>
      if s.thief.frame.isFuture then s.(thief := FiberClaimed(s.thief.frame), fibers := s.fibers.(head := s.fibers.head + 1))
      else s.(thief := Releasing)
    case ReadFiber =>
      s.(thief := Releasing,
         log := s.log.(handedOut := s.log.handedOut + [(s.thief.frame, s.fibers.slots[s.fibers.head - 1])]))
    case Release => s.(thief := Absent, lock := Free)
  }

  // ---------------------------------------------------------------- the invariant

  /** H, T, E and the lock. */
  ghost predicate ControlInv(s: State) {
    && s.ptr.head <= Top(s) <= s.ptr.head + |s.open|
    && (s.lock.ByThief? <==> s.thief != Absent)
    && (s.lock == ByOwner <==> OwnerHasLock(s.owner))
    && s.ptr.exc == s.ptr.head + (if s.thief in {ExcRaised, SawTail, Committed, Failed} then 1 else 0)
    && (s.thief in {SawTail, Committed} ==> s.ptr.head < Top(s))
    && (Drained(s.owner) ==> s.ptr.head == Top(s) && !s.thief.HeadAdvanced? && !s.thief.FiberClaimed?)
    && (s.owner == SlowKept ==> s.ptr.head <= s.ptr.tail)
  }

  /** Frames logically in the deque, oldest first: the youngest Top - head of the control stack. */
  ghost function Live(s: State): seq<Frame>
    requires ControlInv(s)
  {
    s.open[|s.open| - (Top(s) - s.ptr.head)..]
  }

  ghost function FibersOf(fs: seq<Frame>): seq<nat> {
    if fs == [] then [] else (if fs[0].isFuture then [fs[0].fiber] else []) + FibersOf(fs[1..])
  }

  /** The fiber of a frame that has left the head but whose fiber has not been taken yet. */
  function ThiefOwes(s: State): seq<nat> {
    if s.thief.HeadAdvanced? && s.thief.frame.isFuture then [s.thief.frame.fiber] else []
  }

  /** The one extra fiber while the owner is between enqueue and detach, or undo-detach and pop. */
  function OwnerExtra(s: State): seq<nat> {
    match s.owner
    case FiberQueued(f) => [f]
    case FrameWritten(fr) => if fr.isFuture then [fr.fiber] else []
    case FiberPending(f) => [f]
    case _ => []
  }

  /** What the fiber deque must list. */
  ghost function ExpectedFibers(s: State): seq<nat>
    requires ControlInv(s)
  {
    ThiefOwes(s) + FibersOf(Live(s)) + OwnerExtra(s)
  }

  ghost predicate Holds<T>(slots: map<int, T>, lo: int, items: seq<T>) {
    forall k :: lo <= k < lo + |items| ==> k in slots && slots[k] == items[k - lo]
  }

  /** The frame slots from H on hold the live frames. */
  ghost predicate FrameInv(s: State)
    requires ControlInv(s)
  {
    && Holds(s.slots, s.ptr.head, Live(s))
    && (s.owner.FrameWritten? ==> s.ptr.tail in s.slots && s.slots[s.ptr.tail] == s.owner.frame && s.owner.frame.id == |s.log.pushed|)
  }

  ghost predicate QueueHolds(q: FiberQueue, fibers: seq<nat>) {
    q.tail - q.head == |fibers| && Holds(q.slots, q.head, fibers)
  }

  /** The fiber deque is aligned with the frame deque. */
  ghost predicate FiberInv(s: State)
    requires ControlInv(s)
  {
    && (if s.owner == OrphanHeadReset then s.fibers.head == 0 else QueueHolds(s.fibers, ExpectedFibers(s)))
    && (s.owner.FiberWritten? ==> s.fibers.tail in s.fibers.slots && s.fibers.slots[s.fibers.tail] == s.owner.fiber)
    && (s.thief.FiberClaimed? ==>
          s.fibers.head - 1 in s.fibers.slots && s.fibers.slots[s.fibers.head - 1] == s.thief.frame.fiber)
  }

  ghost function Frames(ts: seq<Theft>): seq<Frame> {
    seq(|ts|, i requires 0 <= i < |ts| => ts[i].frame)
  }

  /** The stolen frames in the order they were stolen, then the live frames, oldest first. */
  ghost function Lineup(s: State): seq<Frame>
    requires ControlInv(s)
  {
    Frames(s.log.stolen) + Live(s)
  }

  ghost predicate Increasing(fs: seq<Frame>, bound: nat) {
    && (forall i, j :: 0 <= i < j < |fs| ==> fs[i].id < fs[j].id)
    && (forall i :: 0 <= i < |fs| ==> fs[i].id < bound)
  }

  /** Nothing is lost, nothing is taken twice, and thieves take the oldest frame first. */
  ghost predicate Accounted(pushed: seq<Frame>, popped: seq<Frame>, lineup: seq<Frame>) {
    && (forall i :: 0 <= i < |pushed| ==> pushed[i].id == i)
    && multiset(pushed) == multiset(popped) + multiset(lineup)
    && Increasing(lineup, |pushed|)
  }

  ghost predicate OrderInv(s: State)
    requires ControlInv(s)
  {
    Accounted(s.log.pushed, s.log.popped, Lineup(s)) && EndsWith(Lineup(s), s.open)
  }

  /** The control stack is the recent end of the lineup: a frame the owner has not returned to
      is in the deque or stolen. */
  ghost predicate EndsWith(fs: seq<Frame>, end: seq<Frame>) {
    |end| <= |fs| && fs[|fs| - |end|..] == end
  }

  /** Each popped fiber is the one its party is entitled to. */
  ghost predicate HandoverInv(s: State) {
    && (forall i :: 0 <= i < |s.log.returned| ==> s.log.returned[i].0 == s.log.returned[i].1)
    && (forall i :: 0 <= i < |s.log.handedOut| ==>
          s.log.handedOut[i].0.isFuture && s.log.handedOut[i].1 == s.log.handedOut[i].0.fiber)
    && (s.thief.HeadAdvanced? || s.thief.FiberClaimed? ==>
          s.log.stolen != [] && s.log.stolen[|s.log.stolen| - 1].frame == s.thief.frame)
    && (s.thief.FiberClaimed? ==> s.thief.frame.isFuture)
  }

  ghost predicate Inv(s: State) {
    ControlInv(s) && FrameInv(s) && FiberInv(s) && OrderInv(s) && HandoverInv(s)
  }

  // ---------------------------------------------------------------- one step

  lemma ReadyFrames(s: State)
    requires ControlInv(s) && FrameInv(s)
    ensures (s.owner == TailLowered && s.ptr.tail >= s.ptr.exc) || s.owner == SlowKept ==>
      s.open != [] && s.ptr.tail in s.slots && s.slots[s.ptr.tail] == Last(s.open)
    ensures s.thief == Committed ==> s.ptr.head in s.slots && Live(s) != [] && s.slots[s.ptr.head] == Live(s)[0]
  {
    var live := Live(s);
    if (s.owner == TailLowered && s.ptr.tail >= s.ptr.exc) || s.owner == SlowKept {
      assert s.slots[s.ptr.tail] == live[s.ptr.tail - s.ptr.head];
    }
    if s.thief == Committed {
      assert s.slots[s.ptr.head] == live[0];
    }
  }

  lemma ReadyFibers(s: State)
    requires ControlInv(s) && FiberInv(s)
    ensures s.owner.FiberPending? ==>
      s.fibers.tail - 1 >= s.fibers.head && s.fibers.tail - 1 in s.fibers.slots && s.fibers.slots[s.fibers.tail - 1] == s.owner.fiber
    ensures s.thief.HeadAdvanced? && s.thief.frame.isFuture ==>
      s.fibers.head + 1 <= s.fibers.tail && s.fibers.head in s.fibers.slots && s.fibers.slots[s.fibers.head] == s.thief.frame.fiber
  {
    var q := ExpectedFibers(s);
    if s.owner.FiberPending? {
      assert q[|q| - 1] == s.owner.fiber;
      assert s.fibers.slots[s.fibers.tail - 1] == q[s.fibers.tail - 1 - s.fibers.head];
    }
    if s.thief.HeadAdvanced? && s.thief.frame.isFuture {
      assert q[0] == s.thief.frame.fiber;
      assert s.fibers.slots[s.fibers.head] == q[0];
    }
  }

  /** No access of either party ever finds the structure misaligned: the unlocked fiber pops
      cannot underflow, and a frame the owner gets back is the one in the slot. */
  lemma AlwaysReady(s: State, a: Action)
    requires Inv(s) && Enabled(s, a)
    ensures Ready(s, a)
  {
    ReadyFrames(s);
    ReadyFibers(s);
  }

  lemma ControlOwners(s: State, a: Action)
    requires ControlInv(s) && Enabled(s, a) && Ready(s, a) && !IsThiefs(a) && !IsSlowPath(a)
    ensures ControlInv(ApplyOwners(s, a))
  {
  }

  lemma ControlSlow(s: State, a: Action)
    requires ControlInv(s) && Enabled(s, a) && Ready(s, a) && !IsThiefs(a) && IsSlowPath(a)
    ensures ControlInv(ApplySlow(s, a))
  {
  }

  lemma ControlThiefs(s: State, a: Action)
    requires ControlInv(s) && Enabled(s, a) && Ready(s, a) && IsThiefs(a)
    ensures ControlInv(ApplyThiefs(s, a))
  {
  }

  lemma ControlStep(s: State, a: Action)
    requires ControlInv(s) && Enabled(s, a) && Ready(s, a)
    ensures ControlInv(Apply(s, a))
  {
    if IsThiefs(a) {
      ControlThiefs(s, a);
    } else if IsSlowPath(a) {
      ControlSlow(s, a);
    } else {
      ControlOwners(s, a);
    }
  }

  /** The owner gets its youngest frame back, without or with the lock. */
  predicate Wins(s: State, a: Action) {
    (a == CheckExc && s.ptr.tail >= s.ptr.exc) || (a == DropOwnLock && s.owner == SlowKept)
  }

  /** Actions that move a frame or a fiber, or start or end a piece of work. */
  predicate Moves(s: State, a: Action) {
    a in {StartWork, PublishFiber, PublishFrame, PopFiber, GoIdle, ResetFiberHead, ResetFiberTail,
          AdvanceHead, AdvanceFiberHead, ReadFiber}
    || a.WriteFiber? || a.WriteFrame? || Wins(s, a)
  }

  /** All that the invariant says about frames, fibers and history depends on these. */
  ghost predicate SameDeque(s: State, t: State)
    requires ControlInv(s) && ControlInv(t)
  {
    && t.ptr.head == s.ptr.head && Top(t) == Top(s) && t.open == s.open && t.slots == s.slots
    && t.fibers.head == s.fibers.head && t.fibers.tail == s.fibers.tail && t.fibers.slots == s.fibers.slots
    && t.log.pushed == s.log.pushed && t.log.popped == s.log.popped && t.log.stolen == s.log.stolen
    && t.log.returned == s.log.returned && t.log.handedOut == s.log.handedOut
    && (t.owner == s.owner || !(t.owner.FiberWritten? || t.owner.FiberQueued? || t.owner.FrameWritten?
                                || t.owner.FiberPending? || t.owner == OrphanHeadReset))
    && OwnerExtra(t) == OwnerExtra(s)
    && (t.owner == OrphanHeadReset <==> s.owner == OrphanHeadReset)
    && (t.thief == s.thief
        || !(t.thief.HeadAdvanced? || t.thief.FiberClaimed? || s.thief.HeadAdvanced? || s.thief.FiberClaimed?))
    && (t.owner == s.owner ==> t.ptr.tail == s.ptr.tail)
  }

  lemma KeepsDequeThiefs(s: State, a: Action)
    requires ControlInv(s) && Enabled(s, a) && Ready(s, a) && !Moves(s, a) && IsThiefs(a) && ControlInv(Apply(s, a))
    ensures SameDeque(s, Apply(s, a))
  {
    assert a.Acquire? ==> s.thief == Absent;
    hide ControlInv;
  }

  lemma KeepsDequeOwners(s: State, a: Action)
    requires ControlInv(s) && Enabled(s, a) && Ready(s, a) && !Moves(s, a) && !IsThiefs(a) && ControlInv(Apply(s, a))
    ensures SameDeque(s, Apply(s, a))
  {
  }

  lemma SameLists(s: State, t: State)
    requires ControlInv(s) && ControlInv(t) && SameDeque(s, t)
    ensures Live(t) == Live(s) && Lineup(t) == Lineup(s) && ExpectedFibers(t) == ExpectedFibers(s) && t.fibers == s.fibers
  {
    hide ControlInv;
    assert ThiefOwes(t) == ThiefOwes(s);
  }

  lemma SameDequeKeepsInv(s: State, t: State)
    requires Inv(s) && ControlInv(t) && SameDeque(s, t)
    ensures Inv(t)
  {
    SameLists(s, t);
    hide ControlInv, Live, Lineup, ExpectedFibers, Accounted, EndsWith, Holds, QueueHolds, Top, OwnerExtra, HandoverInv;
    SameHandover(s, t);
  }

  lemma SameHandover(s: State, t: State)
    requires HandoverInv(s) && t.log.stolen == s.log.stolen
    requires t.log.returned == s.log.returned && t.log.handedOut == s.log.handedOut
    requires t.thief == s.thief || !(t.thief.HeadAdvanced? || t.thief.FiberClaimed?)
    ensures HandoverInv(t)
  {
  }

  lemma {:induction false} FibersOfOne(fs: seq<Frame>, f: Frame)
    ensures FibersOf(fs + [f]) == FibersOf(fs) + FibersOf([f])
    ensures FibersOf([f]) == if f.isFuture then [f.fiber] else []
  {
    assert [f][1..] == [];
    if fs == [] {
      assert fs + [f] == [f];
    } else {
      FibersOfOne(fs[1..], f);
      assert (fs + [f])[1..] == fs[1..] + [f];
    }
  }

  ghost predicate Layout(s: State) {
    ControlInv(s) && FrameInv(s) && FiberInv(s)
  }

  // Each action that moves something is taken in two steps.  Its `Effect` lemma says what it does
  // to the live frames and to the fibers to be listed, from the definition of the action alone.
  // Its `Layout` lemma then needs only that effect.

  /** The frame slots keep holding the live frames when those only leave, at either end. */
  lemma CarryFrames(s: State, t: State)
    requires ControlInv(s) && FrameInv(s) && ControlInv(t) && t.slots == s.slots && !t.owner.FrameWritten?
    requires Live(t) == [] || (t.ptr.head == s.ptr.head && Live(t) <= Live(s))
             || (t.ptr.head == s.ptr.head + 1 && Live(s) != [] && Live(t) == Live(s)[1..])
    ensures FrameInv(t)
  {
  }

  lemma CarryFibers(s: State, t: State)
    requires ControlInv(s) && FiberInv(s) && ControlInv(t)
    requires t.fibers == s.fibers && t.thief == s.thief && ExpectedFibers(t) == ExpectedFibers(s)
    requires s.owner != OrphanHeadReset && t.owner != OrphanHeadReset && !t.owner.FiberWritten?
    ensures FiberInv(t)
  {
  }

  lemma QueuePush(q: FiberQueue, fibers: seq<nat>, f: nat)
    requires QueueHolds(q, fibers) && q.tail in q.slots && q.slots[q.tail] == f
    ensures QueueHolds(q.(tail := q.tail + 1), fibers + [f])
  {
  }

  lemma QueuePopTail(q: FiberQueue, fibers: seq<nat>, f: nat)
    requires QueueHolds(q, fibers + [f])
    ensures QueueHolds(q.(tail := q.tail - 1), fibers)
  {
  }

  lemma QueuePopHead(q: FiberQueue, f: nat, fibers: seq<nat>)
    requires QueueHolds(q, [f] + fibers)
    ensures q.head in q.slots && q.slots[q.head] == f && QueueHolds(q.(head := q.head + 1), fibers)
  {
    var all := [f] + fibers;
    assert all[0] == f && forall i :: 0 <= i < |fibers| ==> fibers[i] == all[i + 1];
  }

  lemma NothingLive(s: State)
    requires ControlInv(s) && s.ptr.head == Top(s)
    ensures Live(s) == []
  {
  }

  lemma SameLive(s: State, t: State)
    requires ControlInv(s) && ControlInv(t) && t.ptr.head == s.ptr.head && Top(t) == Top(s) && t.open == s.open
    ensures Live(t) == Live(s)
  {
  }

  lemma SameExpected(s: State, t: State)
    requires ControlInv(s) && ControlInv(t)
    requires Live(t) == Live(s) && ThiefOwes(t) == ThiefOwes(s) && OwnerExtra(t) == OwnerExtra(s)
    ensures ExpectedFibers(t) == ExpectedFibers(s)
  {
    hide ControlInv, Live, FibersOf;
  }

  lemma FieldsStartOrIdle(s: State, a: Action)
    requires Enabled(s, a) && (a == StartWork || a == GoIdle)
    ensures var t := Apply(s, a);
      && t.slots == s.slots && t.fibers == s.fibers && t.thief == s.thief && t.lock == s.lock == Free
      && (if a == StartWork then s.owner == Idle && t.owner == Working && t.open == s.open
          else s.owner == Working && t.owner == Idle && s.open == [] == t.open)
      && t.ptr == if a == StartWork then s.ptr.(head := 0, tail := 0, exc := 0) else s.ptr
  {
  }

  lemma EffectStartOrIdle(s: State, a: Action)
    requires ControlInv(s) && Enabled(s, a) && (a == StartWork || a == GoIdle)
    ensures var t := Apply(s, a);
      && ControlInv(t) && Live(s) == [] == Live(t) && t.slots == s.slots && t.fibers == s.fibers && t.thief == s.thief
      && t.owner in {Working, Idle} && s.owner in {Working, Idle} && ExpectedFibers(t) == ExpectedFibers(s)
  {
    FieldsStartOrIdle(s, a);
    ControlStep(s, a);
    hide Apply, Enabled, Ready, FibersOf, ExpectedFibers, Live;
    NothingLive(s);
    NothingLive(Apply(s, a));
    SameExpected(s, Apply(s, a));
  }

  lemma LayoutStartOrIdle(s: State, a: Action)
    requires Layout(s) && Enabled(s, a) && (a == StartWork || a == GoIdle)
    ensures Layout(Apply(s, a)) && Live(Apply(s, a)) == Live(s)
  {
    hide Apply, Holds, QueueHolds;
    EffectStartOrIdle(s, a);
    CarryFrames(s, Apply(s, a));
    CarryFibers(s, Apply(s, a));
  }

  lemma EffectWriteFiber(s: State, f: nat)
    requires ControlInv(s) && Enabled(s, WriteFiber(f))
    ensures var t := Apply(s, WriteFiber(f));
      && ControlInv(t) && Live(t) == Live(s) && t.ptr == s.ptr && t.slots == s.slots && t.thief == s.thief
      && t.owner == FiberWritten(f) && s.owner == Working
      && t.fibers == s.fibers.(slots := s.fibers.slots[s.fibers.tail := f]) && ExpectedFibers(t) == ExpectedFibers(s)
  {
  }

  lemma LayoutWriteFiber(s: State, f: nat)
    requires Layout(s) && Enabled(s, WriteFiber(f))
    ensures Layout(Apply(s, WriteFiber(f))) && Live(Apply(s, WriteFiber(f))) == Live(s)
  {
    hide Apply;
    EffectWriteFiber(s, f);
    CarryFrames(s, Apply(s, WriteFiber(f)));
  }

  lemma EffectPublishFiber(s: State)
    requires ControlInv(s) && Enabled(s, PublishFiber)
    ensures var t := Apply(s, PublishFiber);
      && ControlInv(t) && Live(t) == Live(s) && t.ptr == s.ptr && t.slots == s.slots && t.thief == s.thief
      && t.owner == FiberQueued(s.owner.fiber) && t.fibers == s.fibers.(tail := s.fibers.tail + 1)
      && ExpectedFibers(t) == ExpectedFibers(s) + [s.owner.fiber]
  {
  }

  lemma LayoutPublishFiber(s: State)
    requires Layout(s) && Enabled(s, PublishFiber)
    ensures Layout(Apply(s, PublishFiber)) && Live(Apply(s, PublishFiber)) == Live(s)
  {
    hide Apply, Holds, QueueHolds;
    EffectPublishFiber(s);
    CarryFrames(s, Apply(s, PublishFiber));
    QueuePush(s.fibers, ExpectedFibers(s), s.owner.fiber);
  }

  lemma FieldsWriteFrame(s: State, isFuture: bool)
    requires Enabled(s, WriteFrame(isFuture))
    ensures var t := Apply(s, WriteFrame(isFuture));
      && t.ptr == s.ptr && t.fibers == s.fibers && t.thief == s.thief && t.lock == s.lock && t.open == s.open && t.log == s.log
      && t.owner.FrameWritten? && t.owner.frame.id == |s.log.pushed| && t.slots == s.slots[s.ptr.tail := t.owner.frame]
      && s.owner == (if isFuture then FiberQueued(t.owner.frame.fiber) else Working)
      && t.owner.frame.isFuture == isFuture
  {
  }

  lemma EffectWriteFrame(s: State, isFuture: bool)
    requires ControlInv(s) && Enabled(s, WriteFrame(isFuture))
    ensures var t := Apply(s, WriteFrame(isFuture));
      && ControlInv(t) && Live(t) == Live(s) && t.ptr == s.ptr && t.fibers == s.fibers && t.thief == s.thief
      && t.owner.FrameWritten? && t.owner.frame.id == |s.log.pushed| && t.log == s.log && Top(s) == s.ptr.tail
      && t.slots == s.slots[s.ptr.tail := t.owner.frame] && s.owner != OrphanHeadReset
      && ExpectedFibers(t) == ExpectedFibers(s)
  {
    FieldsWriteFrame(s, isFuture);
    ControlStep(s, WriteFrame(isFuture));
    hide Apply, Enabled, Ready, ControlInv, ExpectedFibers, Live;
    SameLive(s, Apply(s, WriteFrame(isFuture)));
    SameExpected(s, Apply(s, WriteFrame(isFuture)));
  }

  lemma LayoutWriteFrame(s: State, isFuture: bool)
    requires Layout(s) && Enabled(s, WriteFrame(isFuture))
    ensures Layout(Apply(s, WriteFrame(isFuture))) && Live(Apply(s, WriteFrame(isFuture))) == Live(s)
  {
    hide Apply, QueueHolds;
    EffectWriteFrame(s, isFuture);
    CarryFibers(s, Apply(s, WriteFrame(isFuture)));
  }

  /** A future parent's fiber is the owner's extra one while the owner has the frame, and the
      frame's own while the frame is in the deque: the fiber deque itself need not change. */
  lemma FibersFollowFrame(outside: State, inside: State, f: Frame)
    requires ControlInv(outside) && ControlInv(inside) && Live(inside) == Live(outside) + [f]
    requires OwnerExtra(outside) == (if f.isFuture then [f.fiber] else []) && OwnerExtra(inside) == []
    requires ThiefOwes(outside) == ThiefOwes(inside)
    ensures ExpectedFibers(inside) == ExpectedFibers(outside)
  {
    FibersOfOne(Live(outside), f);
  }

  lemma EffectPublishFrame(s: State)
    requires ControlInv(s) && Enabled(s, PublishFrame)
    ensures var t := Apply(s, PublishFrame); var f := s.owner.frame;
      && ControlInv(t) && Live(t) == Live(s) + [f] && t.owner == Working
      && OwnerExtra(s) == (if f.isFuture then [f.fiber] else []) && OwnerExtra(t) == [] && ThiefOwes(t) == ThiefOwes(s)
      && t.ptr.head == s.ptr.head && t.slots == s.slots && t.fibers == s.fibers && t.thief == s.thief
      && s.ptr.tail == Top(s) == Top(t) - 1
  {
  }

  lemma LayoutPublishFrame(s: State)
    requires Layout(s) && Enabled(s, PublishFrame)
    ensures Layout(Apply(s, PublishFrame)) && Live(Apply(s, PublishFrame)) == Live(s) + [s.owner.frame]
  {
    hide Apply, QueueHolds;
    EffectPublishFrame(s);
    FibersFollowFrame(s, Apply(s, PublishFrame), s.owner.frame);
    CarryFibers(s, Apply(s, PublishFrame));
  }

  lemma FieldsWin(s: State, a: Action)
    requires Enabled(s, a) && Ready(s, a) && Wins(s, a)
    ensures var t := Apply(s, a);
      && s.open != [] && t.open == s.open[..|s.open| - 1]
      && t.owner == (if Last(s.open).isFuture then FiberPending(Last(s.open).fiber) else Working)
      && t.ptr == s.ptr && t.slots == s.slots && t.fibers == s.fibers && t.thief == s.thief && Speculative(s.owner)
  {
  }

  lemma EffectWin(s: State, a: Action)
    requires ControlInv(s) && Enabled(s, a) && Ready(s, a) && Wins(s, a)
    ensures var t := Apply(s, a); var f := Last(s.open);
      && ControlInv(t) && Live(s) == Live(t) + [f] && (t.owner == Working || t.owner.FiberPending?)
      && OwnerExtra(t) == (if f.isFuture then [f.fiber] else []) && OwnerExtra(s) == [] && ThiefOwes(t) == ThiefOwes(s)
      && t.ptr.head == s.ptr.head && t.slots == s.slots && t.fibers == s.fibers && t.thief == s.thief
  {
    hide Apply;
    FieldsWin(s, a);
    ControlStep(s, a);
  }

  lemma LayoutWin(s: State, a: Action)
    requires Layout(s) && Enabled(s, a) && Ready(s, a) && Wins(s, a)
    ensures Layout(Apply(s, a)) && Live(s) == Live(Apply(s, a)) + [Last(s.open)]
  {
    hide Apply, Holds, QueueHolds;
    EffectWin(s, a);
    FibersFollowFrame(Apply(s, a), s, Last(s.open));
    CarryFrames(s, Apply(s, a));
    CarryFibers(s, Apply(s, a));
  }

  lemma PopFiberFields(s: State)
    requires Enabled(s, PopFiber) && Ready(s, PopFiber)
    ensures var t := Apply(s, PopFiber);
      && t.ptr == s.ptr && t.slots == s.slots && t.thief == s.thief && t.lock == s.lock && t.open == s.open
      && s.owner.FiberPending? && t.owner == Working && t.fibers == s.fibers.(tail := s.fibers.tail - 1)
  {
  }

  lemma EffectPopFiber(s: State)
    requires ControlInv(s) && Enabled(s, PopFiber) && Ready(s, PopFiber)
    ensures var t := Apply(s, PopFiber);
      && ControlInv(t) && Live(t) == Live(s) && t.ptr == s.ptr && t.slots == s.slots && t.thief == s.thief
      && t.owner == Working && t.fibers == s.fibers.(tail := s.fibers.tail - 1)
      && ExpectedFibers(s) == ExpectedFibers(t) + [s.owner.fiber]
  {
    PopFiberFields(s);
    ControlStep(s, PopFiber);
    hide Apply, Enabled, Ready, ControlInv, Live, FibersOf;
    SameLive(s, Apply(s, PopFiber));
  }

  lemma LayoutPopFiber(s: State)
    requires Layout(s) && Enabled(s, PopFiber) && Ready(s, PopFiber)
    ensures Layout(Apply(s, PopFiber)) && Live(Apply(s, PopFiber)) == Live(s)
  {
    hide Apply, Holds, QueueHolds;
    EffectPopFiber(s);
    CarryFrames(s, Apply(s, PopFiber));
    QueuePopTail(s.fibers, ExpectedFibers(Apply(s, PopFiber)), s.owner.fiber);
  }

  lemma EffectAdvanceHead(s: State)
    requires ControlInv(s) && Enabled(s, AdvanceHead) && Ready(s, AdvanceHead)
    requires Live(s) != [] && s.slots[s.ptr.head] == Live(s)[0]
    ensures var t := Apply(s, AdvanceHead);
      && ControlInv(t) && Live(t) == Live(s)[1..] && t.ptr == s.ptr.(head := s.ptr.head + 1) && t.slots == s.slots
      && t.owner == s.owner && t.thief == HeadAdvanced(Live(s)[0]) && t.fibers == s.fibers
      && t.log.pushed == s.log.pushed
  {
  }

  lemma LayoutAdvanceHead(s: State)
    requires Layout(s) && Enabled(s, AdvanceHead) && Ready(s, AdvanceHead)
    ensures Layout(Apply(s, AdvanceHead)) && Live(s) == [s.slots[s.ptr.head]] + Live(Apply(s, AdvanceHead))
  {
    FramesAdvance(s);
    hide Apply, FrameInv, FiberInv, Enabled, Ready, ControlInv, Live;
    FibersStay(s);
  }

  lemma FramesAdvance(s: State)
    requires Layout(s) && Enabled(s, AdvanceHead) && Ready(s, AdvanceHead)
    ensures ControlInv(Apply(s, AdvanceHead)) && FrameInv(Apply(s, AdvanceHead))
    ensures Live(s) != [] && s.slots[s.ptr.head] == Live(s)[0] && Live(s) == [s.slots[s.ptr.head]] + Live(Apply(s, AdvanceHead))
  {
    assert s.thief == Committed;
    hide Apply, FiberInv, Enabled, Ready, ControlInv, Live, Top;
    ReadyFrames(s);
    EffectAdvanceHead(s);
    hide Holds;
    HoldsRest(s.slots, s.ptr.head, Live(s));
  }

  lemma FibersStay(s: State)
    requires ControlInv(s) && FiberInv(s) && Enabled(s, AdvanceHead) && Ready(s, AdvanceHead) && ControlInv(Apply(s, AdvanceHead))
    requires Live(s) != [] && s.slots[s.ptr.head] == Live(s)[0]
    ensures FiberInv(Apply(s, AdvanceHead))
  {
    hide Apply, QueueHolds, Enabled, Ready, ControlInv, Live, ExpectedFibers, Top;
    EffectAdvanceHead(s);
    OwedByThief(s);
  }

  lemma HoldsRest<T>(slots: map<int, T>, lo: int, items: seq<T>)
    requires Holds(slots, lo, items) && items != []
    ensures Holds(slots, lo + 1, items[1..])
  {
  }

  lemma FibersOfCons(f: Frame, fs: seq<Frame>)
    ensures FibersOf([f] + fs) == (if f.isFuture then [f.fiber] else []) + FibersOf(fs)
  {
    assert ([f] + fs)[1..] == fs;
  }

  /** What the head frame stood for is now owed to the thief. */
  lemma OwedByThief(s: State)
    requires ControlInv(s) && Enabled(s, AdvanceHead) && Ready(s, AdvanceHead) && ControlInv(Apply(s, AdvanceHead))
    requires Live(s) != [] && s.slots[s.ptr.head] == Live(s)[0]
    ensures ExpectedFibers(Apply(s, AdvanceHead)) == ExpectedFibers(s)
  {
    assert s.thief == Committed;
    EffectAdvanceHead(s);
    hide Apply, Enabled, Ready, ControlInv, Live, FibersOf;
    var f, rest := Live(s)[0], Live(s)[1..];
    assert Live(s) == [f] + rest;
    FibersOfCons(f, rest);
  }

  lemma EffectAdvanceFiberHead(s: State)
    requires ControlInv(s) && Enabled(s, AdvanceFiberHead) && Ready(s, AdvanceFiberHead)
    ensures var t := Apply(s, AdvanceFiberHead);
      && ControlInv(t) && Live(t) == Live(s) && t.ptr == s.ptr && t.slots == s.slots && t.owner == s.owner && t.log == s.log
      && s.owner != OrphanHeadReset
      && (if s.thief.frame.isFuture
          then t.thief == FiberClaimed(s.thief.frame) && t.fibers == s.fibers.(head := s.fibers.head + 1)
          else t.thief == Releasing && t.fibers == s.fibers)
  {
  }

  lemma OwedFiberGoes(s: State)
    requires ControlInv(s) && Enabled(s, AdvanceFiberHead) && Ready(s, AdvanceFiberHead) && ControlInv(Apply(s, AdvanceFiberHead))
    ensures var rest := ExpectedFibers(Apply(s, AdvanceFiberHead));
      ExpectedFibers(s) == if s.thief.frame.isFuture then [s.thief.frame.fiber] + rest else rest
  {
    EffectAdvanceFiberHead(s);
    hide Apply, Enabled, Ready, ControlInv, FibersOf, Live;
  }

  lemma FibersAdvance(s: State)
    requires Layout(s) && Enabled(s, AdvanceFiberHead) && Ready(s, AdvanceFiberHead) && ControlInv(Apply(s, AdvanceFiberHead))
    ensures FiberInv(Apply(s, AdvanceFiberHead))
  {
    assert s.thief.HeadAdvanced?;
    hide Apply, Enabled, Ready, ControlInv, FrameInv, Holds, QueueHolds, ExpectedFibers, Live, Top;
    EffectAdvanceFiberHead(s);
    OwedFiberGoes(s);
    if s.thief.frame.isFuture {
      QueuePopHead(s.fibers, s.thief.frame.fiber, ExpectedFibers(Apply(s, AdvanceFiberHead)));
    }
  }

  lemma LayoutAdvanceFiberHead(s: State)
    requires Layout(s) && Enabled(s, AdvanceFiberHead) && Ready(s, AdvanceFiberHead)
    ensures Layout(Apply(s, AdvanceFiberHead)) && Live(Apply(s, AdvanceFiberHead)) == Live(s)
  {
    EffectAdvanceFiberHead(s);
    hide Apply, Enabled, Ready, ControlInv, Holds, FiberInv, Live, Top;
    FibersAdvance(s);
  }

  lemma EffectReadFiber(s: State)
    requires ControlInv(s) && Enabled(s, ReadFiber) && Ready(s, ReadFiber)
    ensures var t := Apply(s, ReadFiber);
      && ControlInv(t) && Live(t) == Live(s) && t.ptr == s.ptr && t.slots == s.slots && t.owner == s.owner
      && t.log.pushed == s.log.pushed && t.thief == Releasing && t.fibers == s.fibers && ExpectedFibers(t) == ExpectedFibers(s)
  {
  }

  lemma LayoutReadFiber(s: State)
    requires Layout(s) && Enabled(s, ReadFiber) && Ready(s, ReadFiber)
    ensures Layout(Apply(s, ReadFiber)) && Live(Apply(s, ReadFiber)) == Live(s)
  {
    hide Apply, Holds, QueueHolds;
    EffectReadFiber(s);
  }

  lemma FieldsResetFibers(s: State, a: Action)
    requires Enabled(s, a) && (a == ResetFiberHead || a == ResetFiberTail)
    ensures var t := Apply(s, a);
      && Drained(s.owner) && t.slots == s.slots && t.thief == s.thief && t.ptr == s.ptr && t.lock == s.lock
      && (if a == ResetFiberHead then t.owner == OrphanHeadReset && t.fibers.head == 0 && t.open == s.open
          else t.owner == Idle && t.fibers.head == s.fibers.head && t.fibers.tail == 0 && t.open == [])
  {
  }

  lemma EffectResetFibers(s: State, a: Action)
    requires ControlInv(s) && Enabled(s, a) && (a == ResetFiberHead || a == ResetFiberTail)
    ensures var t := Apply(s, a);
      && ControlInv(t) && Live(s) == [] == Live(t) && t.slots == s.slots && t.thief == s.thief && !t.thief.FiberClaimed?
      && (if a == ResetFiberHead then t.owner == OrphanHeadReset && t.fibers.head == 0
          else t.owner == Idle && t.fibers.head == s.fibers.head && t.fibers.tail == 0 && ExpectedFibers(t) == [])
  {
    FieldsResetFibers(s, a);
    ControlStep(s, a);
    hide Apply, Enabled, Ready, Live, ExpectedFibers;
    NothingLive(s);
    NothingLive(Apply(s, a));
    if a == ResetFiberTail {
      NothingExpected(Apply(s, a));
    }
  }

  lemma NothingExpected(s: State)
    requires ControlInv(s) && Live(s) == [] && ThiefOwes(s) == [] && OwnerExtra(s) == []
    ensures ExpectedFibers(s) == []
  {
    hide ControlInv, Live;
  }

  lemma LayoutResetFibers(s: State, a: Action)
    requires Layout(s) && Enabled(s, a) && (a == ResetFiberHead || a == ResetFiberTail)
    ensures Layout(Apply(s, a)) && Live(Apply(s, a)) == Live(s)
  {
    hide Apply;
    EffectResetFibers(s, a);
    CarryFrames(s, Apply(s, a));
  }

  /** What each action does to the push history, the owner's pops and its control stack. */
  ghost predicate StacksChange(s: State, a: Action)
    requires Enabled(s, a) && Ready(s, a)
  {
    var t := Apply(s, a);
    && t.log.pushed == (if a == PublishFrame then s.log.pushed + [s.owner.frame] else s.log.pushed)
    && (Wins(s, a) ==> s.open != [])
    && t.log.popped == (if Wins(s, a) then s.log.popped + [Last(s.open)] else s.log.popped)
    && t.open == (if a == PublishFrame then s.open + [s.owner.frame]
                  else if Wins(s, a) then s.open[..|s.open| - 1]
                  else if a == GoIdle || a == ResetFiberTail then [] else s.open)
    && t.log.stolen == (if a == AdvanceHead then s.log.stolen + [Theft(s.slots[s.ptr.head], s.lock.thief)] else s.log.stolen)
  }

  lemma StacksThiefs(s: State, a: Action)
    requires Enabled(s, a) && Ready(s, a) && IsThiefs(a)
    ensures StacksChange(s, a)
  {
    hide ApplyOwners, ApplySlow;
  }

  lemma StacksWin(s: State, a: Action)
    requires Enabled(s, a) && Ready(s, a) && Wins(s, a)
    ensures StacksChange(s, a)
  {
  }

  lemma StacksSlow(s: State, a: Action)
    requires Enabled(s, a) && Ready(s, a) && IsSlowPath(a) && !Wins(s, a)
    ensures StacksChange(s, a)
  {
    hide ApplyOwners, ApplyThiefs;
  }

  lemma StacksOwners(s: State, a: Action)
    requires Enabled(s, a) && Ready(s, a) && !IsThiefs(a) && !IsSlowPath(a) && !Wins(s, a)
    ensures StacksChange(s, a)
  {
    hide ApplySlow, ApplyThiefs;
  }

  lemma StacksStep(s: State, a: Action)
    requires Enabled(s, a) && Ready(s, a)
    ensures StacksChange(s, a)
  {
    hide StacksChange;
    if IsThiefs(a) {
      StacksThiefs(s, a);
    } else if Wins(s, a) {
      StacksWin(s, a);
    } else if IsSlowPath(a) {
      StacksSlow(s, a);
    } else {
      StacksOwners(s, a);
    }
  }

  lemma Regroup(a: seq<Frame>, b: seq<Frame>, c: seq<Frame>)
    ensures (a + b) + c == a + (b + c)
  {
  }

  lemma FramesNext(ts: seq<Theft>, x: Theft)
    ensures Frames(ts + [x]) == Frames(ts) + [x.frame]
  {
  }

  lemma LineupStep(s: State, a: Action)
    requires ControlInv(s) && Enabled(s, a) && Ready(s, a) && Moves(s, a) && ControlInv(Apply(s, a))
    requires LiveChange(s, a)
    ensures var t := Apply(s, a);
      if a == PublishFrame then Lineup(t) == Lineup(s) + [s.owner.frame]
      else if Wins(s, a) then Lineup(s) == Lineup(t) + [Last(s.open)]
      else Lineup(t) == Lineup(s)
  {
    assert a == PublishFrame ==> s.owner.FrameWritten?;
    hide Apply, Enabled, Ready, ControlInv, Moves, Live, Frames;
    StacksStep(s, a);
    var t := Apply(s, a);
    if a == PublishFrame {
      Regroup(Frames(s.log.stolen), Live(s), [s.owner.frame]);
    } else if Wins(s, a) {
      Regroup(Frames(s.log.stolen), Live(t), [Last(s.open)]);
    } else if a == AdvanceHead {
      FramesNext(s.log.stolen, Theft(s.slots[s.ptr.head], s.lock.thief));
      Regroup(Frames(s.log.stolen), [s.slots[s.ptr.head]], Live(t));
    }
  }

  lemma AccountPush(pushed: seq<Frame>, popped: seq<Frame>, lineup: seq<Frame>, open: seq<Frame>, f: Frame)
    requires Accounted(pushed, popped, lineup) && EndsWith(lineup, open) && f.id == |pushed|
    ensures Accounted(pushed + [f], popped, lineup + [f]) && EndsWith(lineup + [f], open + [f])
  {
  }

  lemma AccountPop(pushed: seq<Frame>, popped: seq<Frame>, lineup: seq<Frame>, open: seq<Frame>, f: Frame)
    requires Accounted(pushed, popped, lineup + [f]) && EndsWith(lineup + [f], open) && open != []
    ensures Accounted(pushed, popped + [f], lineup) && EndsWith(lineup, open[..|open| - 1])
  {
    var whole := lineup + [f];
    assert forall i :: 0 <= i < |lineup| ==> lineup[i] == whole[i];
    assert whole[|whole| - |open|..][..|open| - 1] == lineup[|lineup| - (|open| - 1)..];
  }

  lemma OrderPush(s: State)
    requires ControlInv(s) && OrderInv(s) && Enabled(s, PublishFrame) && ControlInv(Apply(s, PublishFrame))
    requires s.owner.frame.id == |s.log.pushed| && LiveChange(s, PublishFrame)
    ensures OrderInv(Apply(s, PublishFrame))
  {
    ghost var f := s.owner.frame;
    hide Apply, Enabled, Ready, Accounted, EndsWith, Lineup, LiveChange, ControlInv;
    StacksStep(s, PublishFrame);
    LineupStep(s, PublishFrame);
    AccountPush(s.log.pushed, s.log.popped, Lineup(s), s.open, f);
  }

  lemma OrderWin(s: State, a: Action)
    requires ControlInv(s) && OrderInv(s) && Enabled(s, a) && Ready(s, a) && Wins(s, a) && ControlInv(Apply(s, a))
    requires LiveChange(s, a)
    ensures OrderInv(Apply(s, a))
  {
    hide Apply, Enabled, Ready, Accounted, EndsWith, Lineup, LiveChange, ControlInv;
    StacksStep(s, a);
    LineupStep(s, a);
    AccountPop(s.log.pushed, s.log.popped, Lineup(Apply(s, a)), s.open, Last(s.open));
  }

  lemma OrderSame(s: State, a: Action)
    requires ControlInv(s) && OrderInv(s) && Enabled(s, a) && Ready(s, a) && Moves(s, a) && ControlInv(Apply(s, a))
    requires LiveChange(s, a) && a != PublishFrame && !Wins(s, a)
    ensures OrderInv(Apply(s, a))
  {
    hide Apply, Enabled, Ready, Accounted, Lineup, LiveChange, ControlInv, Moves, Wins;
    StacksStep(s, a);
    LineupStep(s, a);
  }

  lemma OrderStep(s: State, a: Action)
    requires ControlInv(s) && OrderInv(s) && Enabled(s, a) && Ready(s, a) && Moves(s, a) && ControlInv(Apply(s, a))
    requires a == PublishFrame ==> s.owner.frame.id == |s.log.pushed|
    requires LiveChange(s, a)
    ensures OrderInv(Apply(s, a))
  {
    hide Apply, OrderInv, LiveChange, ControlInv, Moves;
    if a == PublishFrame {
      OrderPush(s);
    } else if Wins(s, a) {
      OrderWin(s, a);
    } else {
      OrderSame(s, a);
    }
  }

  lemma HandoversSame(s: State, a: Action)
    requires Enabled(s, a) && Ready(s, a) && Moves(s, a) && a !in {PopFiber, AdvanceHead, AdvanceFiberHead, ReadFiber}
    ensures var t := Apply(s, a);
      && t.log.returned == s.log.returned && t.log.handedOut == s.log.handedOut
      && t.thief == s.thief && t.log.stolen == s.log.stolen
  {
  }

  lemma HandoverKept(s: State, a: Action)
    requires HandoverInv(s) && Enabled(s, a) && Ready(s, a) && Moves(s, a)
    requires a !in {PopFiber, AdvanceHead, AdvanceFiberHead, ReadFiber}
    ensures HandoverInv(Apply(s, a))
  {
    hide Apply, Enabled, Ready, Moves;
    HandoversSame(s, a);
  }

  lemma HandoverPopFiber(s: State)
    requires ControlInv(s) && FiberInv(s) && HandoverInv(s) && Enabled(s, PopFiber) && Ready(s, PopFiber)
    ensures HandoverInv(Apply(s, PopFiber))
  {
    hide QueueHolds, Holds;
    ReadyFibers(s);
  }

  lemma HandoverHead(s: State)
    requires HandoverInv(s) && Enabled(s, AdvanceHead) && Ready(s, AdvanceHead)
    ensures HandoverInv(Apply(s, AdvanceHead))
  {
  }

  lemma HandoverFiberHead(s: State)
    requires HandoverInv(s) && Enabled(s, AdvanceFiberHead) && Ready(s, AdvanceFiberHead)
    ensures HandoverInv(Apply(s, AdvanceFiberHead))
  {
  }

  lemma HandoverReadFiber(s: State)
    requires ControlInv(s) && FiberInv(s) && HandoverInv(s) && Enabled(s, ReadFiber) && Ready(s, ReadFiber)
    ensures HandoverInv(Apply(s, ReadFiber))
  {
    assert s.fibers.slots[s.fibers.head - 1] == s.thief.frame.fiber;
    hide ControlInv, FiberInv;
  }

  lemma HandoverStep(s: State, a: Action)
    requires Layout(s) && HandoverInv(s) && Enabled(s, a) && Ready(s, a) && Moves(s, a)
    ensures HandoverInv(Apply(s, a))
  {
    hide HandoverInv, Apply, FrameInv, FiberInv, Enabled, Ready, Moves;
    if a == PopFiber {
      HandoverPopFiber(s);
    } else if a == AdvanceHead {
      HandoverHead(s);
    } else if a == AdvanceFiberHead {
      HandoverFiberHead(s);
    } else if a == ReadFiber {
      HandoverReadFiber(s);
    } else {
      HandoverKept(s, a);
    }
  }

  /** A push appends a live frame, the owner drops the last, a thief the first. */
  ghost predicate LiveChange(s: State, a: Action)
    requires ControlInv(s) && Enabled(s, a) && Ready(s, a) && ControlInv(Apply(s, a))
  {
    var t := Apply(s, a);
    if a == PublishFrame then Live(t) == Live(s) + [s.owner.frame]
    else if Wins(s, a) then Live(s) == Live(t) + [Last(s.open)]
    else if a == AdvanceHead then Live(s) == [s.slots[s.ptr.head]] + Live(t)
    else Live(t) == Live(s)
  }

  lemma LayoutStep(s: State, a: Action)
    requires Layout(s) && Enabled(s, a) && Ready(s, a) && Moves(s, a)
    ensures Layout(Apply(s, a)) && LiveChange(s, a)
  {
    if Wins(s, a) {
      LayoutWin(s, a);
    } else {
      match a
      case StartWork => LayoutStartOrIdle(s, a);
      case GoIdle => LayoutStartOrIdle(s, a);
      case WriteFiber(f) => LayoutWriteFiber(s, f);
      case PublishFiber => LayoutPublishFiber(s);
      case WriteFrame(isFuture) => LayoutWriteFrame(s, isFuture);
      case PublishFrame => LayoutPublishFrame(s);
      case PopFiber => LayoutPopFiber(s);
      case AdvanceHead => LayoutAdvanceHead(s);
      case AdvanceFiberHead => LayoutAdvanceFiberHead(s);
      case ReadFiber => LayoutReadFiber(s);
      case ResetFiberHead => LayoutResetFibers(s, a);
      case ResetFiberTail => LayoutResetFibers(s, a);
    }
  }

  /** One step of either party keeps the invariant, and is never blocked by a misalignment. */
  lemma InvStep(s: State, a: Action)
    requires Inv(s) && Enabled(s, a)
    ensures Ready(s, a) && Inv(Apply(s, a))
  {
    hide Apply, FiberInv, OrderInv, HandoverInv, SameDeque;
    AlwaysReady(s, a);
    if Moves(s, a) {
      LayoutStep(s, a);
      OrderStep(s, a);
      HandoverStep(s, a);
    } else {
      ControlStep(s, a);
      if IsThiefs(a) { KeepsDequeThiefs(s, a); } else { KeepsDequeOwners(s, a); }
      SameDequeKeepsInv(s, Apply(s, a));
    }
  }

  // ---------------------------------------------------------------- whole runs

  /** `acts` can be executed from `s`: each action is enabled, ready, and within the buffers when its
      turn comes; otherwise the program is stopped there. */
  ghost predicate Valid(s: State, acts: seq<Action>)
    decreases |acts|
  {
    acts == [] || (Enabled(s, acts[0]) && Ready(s, acts[0]) && Fits(s, acts[0]) && Valid(Apply(s, acts[0]), acts[1..]))
  }

  ghost function Run(s: State, acts: seq<Action>): State
    requires Valid(s, acts)
    decreases |acts|
  {
    if acts == [] then s else Run(Apply(s, acts[0]), acts[1..])
  }

  /** The states the owner and the thieves can reach together, in any interleaving. */
  ghost predicate Reachable(s: State) {
    exists limit: nat, acts: seq<Action> :: Valid(Init(limit), acts) && Run(Init(limit), acts) == s
  }

  lemma {:induction false} RunKeepsInv(s: State, acts: seq<Action>)
    requires Inv(s) && Valid(s, acts)
    ensures Inv(Run(s, acts))
    decreases |acts|
  {
    if acts != [] {
      InvStep(s, acts[0]);
      RunKeepsInv(Apply(s, acts[0]), acts[1..]);
    }
  }

  lemma InitInv(limit: nat)
    ensures Inv(Init(limit))
  {
    var s := Init(limit);
    assert ControlInv(s);
    assert Live(s) == [];
    assert ExpectedFibers(s) == [];
    assert Lineup(s) == [];
  }

  lemma ReachableInv(s: State)
    requires Reachable(s)
    ensures Inv(s)
  {
    var limit: nat, acts: seq<Action> :| Valid(Init(limit), acts) && Run(Init(limit), acts) == s;
    InitInv(limit);
    RunKeepsInv(Init(limit), acts);
  }

  // ---------------------------------------------------------------- depth

  /** The indices are depths: T is the number of frames the owner has not returned to, and the tail
      of the fiber deque the number of futures among them, with the owner's own in between. */
  ghost predicate DepthInv(s: State) {
    && (if s.owner == Idle then s.open == [] else Top(s) == |s.open|)
    && s.fibers.tail == |FibersOf(s.open)| + |OwnerExtra(s)|
  }

  lemma DepthThiefs(s: State, a: Action)
    requires DepthInv(s) && Enabled(s, a) && Ready(s, a) && IsThiefs(a)
    ensures DepthInv(Apply(s, a))
  {
    hide FibersOf, ApplyOwners, ApplySlow;
  }

  lemma DepthWin(s: State, a: Action)
    requires DepthInv(s) && Enabled(s, a) && Ready(s, a) && Wins(s, a)
    ensures DepthInv(Apply(s, a))
  {
    hide Apply, Enabled, Ready, FibersOf, Wins;
    FieldsWin(s, a);
    LastFiber(s.open);
  }

  lemma LastFiber(fs: seq<Frame>)
    requires fs != []
    ensures |FibersOf(fs)| == |FibersOf(fs[..|fs| - 1])| + if Last(fs).isFuture then 1 else 0
  {
    hide FibersOf;
    var rest := fs[..|fs| - 1];
    assert fs == rest + [Last(fs)];
    FibersOfOne(rest, Last(fs));
  }

  lemma SlowKeepsDepth(s: State, a: Action)
    requires Enabled(s, a) && Ready(s, a) && IsSlowPath(a) && !Wins(s, a) && a != ResetFiberTail
    ensures var t := Apply(s, a);
      && t.open == s.open && t.fibers.tail == s.fibers.tail && Top(t) == Top(s)
      && s.owner != Idle && t.owner != Idle && OwnerExtra(s) == [] == OwnerExtra(t)
  {
    hide Ready, ApplyOwners, ApplyThiefs;
  }

  lemma DepthSlow(s: State, a: Action)
    requires DepthInv(s) && Enabled(s, a) && Ready(s, a) && IsSlowPath(a) && !Wins(s, a)
    ensures DepthInv(Apply(s, a))
  {
    if a != ResetFiberTail {
      SlowKeepsDepth(s, a);
      hide Apply, Enabled;
    }
    assert FibersOf([]) == [];
    hide FibersOf, Ready;
    hide ApplyOwners, ApplyThiefs;
  }

  lemma DepthOwners(s: State, a: Action)
    requires DepthInv(s) && Enabled(s, a) && Ready(s, a) && !IsThiefs(a) && !IsSlowPath(a) && !Wins(s, a)
    ensures DepthInv(Apply(s, a))
  {
    assert FibersOf([]) == [];
    if a == PublishFrame {
      FibersOfOne(s.open, s.owner.frame);
    }
    hide FibersOf;
  }

  lemma {:induction false} RunKeepsDepth(s: State, acts: seq<Action>)
    requires DepthInv(s) && Valid(s, acts)
    ensures DepthInv(Run(s, acts))
    decreases |acts|
  {
    hide DepthInv, Apply, Enabled, Ready;
    if acts != [] {
      var a := acts[0];
      if IsThiefs(a) {
        DepthThiefs(s, a);
      } else if Wins(s, a) {
        DepthWin(s, a);
      } else if IsSlowPath(a) {
        DepthSlow(s, a);
      } else {
        DepthOwners(s, a);
      }
      RunKeepsDepth(Apply(s, a), acts[1..]);
    }
  }

  /** The assertion before a push of a frame holds exactly while fewer frames are open than the buffer
      has room for; the one after a push of a fiber exactly while the futures among them leave room
      for two more fibers. */
  lemma PushAssertionsExact(s: State, a: Action)
    requires Reachable(s) && Enabled(s, a)
    ensures a.WriteFrame? ==> (Fits(s, a) <==> |s.open| < s.limit)
    ensures a == PublishFiber ==> (Fits(s, a) <==> |FibersOf(s.open)| + 1 < s.limit)
    ensures !a.WriteFrame? && a != PublishFiber ==> Fits(s, a)
  {
    var limit: nat, acts: seq<Action> :| Valid(Init(limit), acts) && Run(Init(limit), acts) == s;
    RunKeepsDepth(Init(limit), acts);
  }

  /** One more step at the end of a run. */
  lemma {:induction false} RunAppend(s: State, acts: seq<Action>, a: Action)
    requires Valid(s, acts) && Enabled(Run(s, acts), a) && Ready(Run(s, acts), a) && Fits(Run(s, acts), a)
    ensures Valid(s, acts + [a]) && Run(s, acts + [a]) == Apply(Run(s, acts), a)
    decreases |acts|
  {
    hide Enabled, Ready, Fits, Apply;
    if acts == [] {
      assert [a][1..] == [];
      assert acts + [a] == [a];
    } else {
      assert (acts + [a])[1..] == acts[1..] + [a];
      RunAppend(Apply(s, acts[0]), acts[1..], a);
    }
  }

  lemma ReachableStep(s: State, a: Action)
    requires Reachable(s) && Enabled(s, a) && Ready(s, a) && Fits(s, a)
    ensures Reachable(Apply(s, a))
  {
    hide Enabled, Ready, Fits, Apply;
    var limit: nat, acts: seq<Action> :| Valid(Init(limit), acts) && Run(Init(limit), acts) == s;
    RunAppend(Init(limit), acts, a);
  }

  /** `n` spawns one inside the other, of futures or of functions. */
  lemma {:induction false} DeepSpawns(limit: nat, n: nat, futures: bool) returns (s: State)
    requires if futures then n == 0 || n < limit else n <= limit
    ensures Reachable(s) && s.limit == limit && s.owner == Working && |s.open| == n
    ensures |FibersOf(s.open)| == if futures then n else 0
  {
    if n == 0 {
      var init := Init(limit);
      assert Valid(init, []) && Run(init, []) == init;
      assert Reachable(init);
      ReachableStep(init, StartWork);
      s := Apply(init, StartWork);
    } else {
      var before := DeepSpawns(limit, n - 1, futures);
      s := SpawnOnce(before, futures);
    }
  }

  lemma SpawnOnce(before: State, isFuture: bool) returns (s: State)
    requires Reachable(before) && before.owner == Working && |before.open| < before.limit
    requires isFuture ==> |FibersOf(before.open)| + 1 < before.limit
    ensures Reachable(s) && s.limit == before.limit && s.owner == Working && |s.open| == |before.open| + 1
    ensures |FibersOf(s.open)| == |FibersOf(before.open)| + if isFuture then 1 else 0
  {
    hide Reachable, Valid, Run, FibersOf;
    s := before;
    if isFuture {
      ReachableStep(s, WriteFiber(0));
      s := Apply(s, WriteFiber(0));
      PushAssertionsExact(s, PublishFiber);
      ReachableStep(s, PublishFiber);
      s := Apply(s, PublishFiber);
    }
    PushAssertionsExact(s, WriteFrame(isFuture));
    ReachableStep(s, WriteFrame(isFuture));
    s := Apply(s, WriteFrame(isFuture));
    FibersOfOne(s.open, s.owner.frame);
    ReachableStep(s, PublishFrame);
    s := Apply(s, PublishFrame);
  }

  /** Whatever the size of the buffers, a program can make each of the two assertions fail. */
  lemma TooDeep(limit: nat) returns (s: State, t: State)
    ensures Reachable(s) && s.limit == limit && Enabled(s, WriteFrame(false)) && !Fits(s, WriteFrame(false))
    ensures Reachable(t) && t.limit == limit && Enabled(t, PublishFiber) && !Fits(t, PublishFiber)
  {
    hide Reachable, FibersOf;
    s := DeepSpawns(limit, limit, false);
    PushAssertionsExact(s, WriteFrame(false));
    hide Fits;
    var before := DeepSpawns(limit, if limit == 0 then 0 else limit - 1, true);
    ReachableStep(before, WriteFiber(0));
    t := Apply(before, WriteFiber(0));
    PushAssertionsExact(t, PublishFiber);
  }

  // ---------------------------------------------------------------- what holds in every reachable state

  /** E is H or H + 1 at every moment, and H whenever no thief holds the lock; T is never more
      than one behind H, and then only while the owner has lowered it. */
  lemma ExcWithinOneOfHead(s: State)
    requires Reachable(s)
    ensures s.ptr.exc == s.ptr.head || s.ptr.exc == s.ptr.head + 1
    ensures !s.lock.ByThief? ==> s.ptr.exc == s.ptr.head
    ensures s.ptr.head <= s.ptr.tail + 1 && (!Speculative(s.owner) ==> s.ptr.head <= s.ptr.tail)
  {
    ReachableInv(s);
  }

  /** How often a frame has been popped by the owner, and stolen. */
  ghost function TimesTaken(s: State, f: Frame): nat {
    multiset(s.log.popped)[f] + multiset(Frames(s.log.stolen))[f]
  }

  lemma Occurrences(fs: seq<Frame>, k: nat)
    requires k < |fs| && forall i :: 0 <= i < |fs| ==> fs[i].id == i
    ensures multiset(fs)[fs[k]] == 1
  {
    assert fs == fs[..k] + [fs[k]] + fs[k + 1..];
    assert fs[k] !in fs[..k] && fs[k] !in fs[k + 1..];
  }

  /** THE safety: at every moment each pushed frame has been taken at most once, by the owner
      or by a thief but not by both, and it has not been taken exactly when it is still in the
      deque; nothing else is ever taken. */
  lemma TakenExactlyOnce(s: State, k: nat)
    requires Reachable(s) && k < |s.log.pushed|
    ensures ControlInv(s)
    ensures TimesTaken(s, s.log.pushed[k]) <= 1
    ensures TimesTaken(s, s.log.pushed[k]) == 0 <==> s.log.pushed[k] in Live(s)
    ensures s.ptr.head == Top(s) ==> TimesTaken(s, s.log.pushed[k]) == 1
    ensures forall f :: f in s.log.popped || f in Frames(s.log.stolen) ==> f in s.log.pushed
  {
    hide Reachable, FrameInv, FiberInv, HandoverInv;
    ReachableInv(s);
    var f := s.log.pushed[k];
    Occurrences(s.log.pushed, k);
    assert multiset(s.log.pushed)[f] == multiset(s.log.popped)[f] + multiset(Lineup(s))[f];
    assert multiset(Lineup(s)) == multiset(Frames(s.log.stolen)) + multiset(Live(s));
    assert f in Live(s) <==> multiset(Live(s))[f] > 0;
    forall g | g in s.log.popped || g in Frames(s.log.stolen) ensures g in s.log.pushed {
      assert g in multiset(s.log.pushed);
    }
  }

  /** Thieves take frames oldest first: whatever has been stolen is older than every frame
      stolen later and than every frame still in the deque. */
  lemma StolenOldestFirst(s: State, i: nat, j: nat)
    requires Reachable(s) && i < |s.log.stolen|
    ensures i < j < |s.log.stolen| ==> s.log.stolen[i].frame.id < s.log.stolen[j].frame.id
    ensures ControlInv(s) && (j < |Live(s)| ==> s.log.stolen[i].frame.id < Live(s)[j].id)
  {
    hide Reachable, FrameInv, FiberInv, HandoverInv;
    ReachableInv(s);
    var all := Lineup(s);
    assert all[i] == s.log.stolen[i].frame;
    if i < j < |s.log.stolen| { assert all[j] == s.log.stolen[j].frame; }
    if j < |Live(s)| { assert all[|s.log.stolen| + j] == Live(s)[j]; }
  }

  /** Between two pieces of work the fiber deque lists exactly the fibers of the future parents
      in the frame deque, in the same order; at other times there is at most one fiber more at
      each end: the owner's at the tail, the current thief's at the head. */
  lemma FibersAligned(s: State)
    requires Reachable(s) && s.owner != OrphanHeadReset
    ensures ControlInv(s)
    ensures s.fibers.tail - s.fibers.head == |ExpectedFibers(s)| && Holds(s.fibers.slots, s.fibers.head, ExpectedFibers(s))
    ensures |FibersOf(Live(s))| <= s.fibers.tail - s.fibers.head <= |FibersOf(Live(s))| + 2
    ensures (s.owner == Working || s.owner == Suspended || s.owner == Idle) && !s.thief.HeadAdvanced? ==>
      ExpectedFibers(s) == FibersOf(Live(s))
  {
    ReachableInv(s);
  }

  /** The unlocked pops: the owner's never underflows, the thief's never overtakes the tail, and
      every fiber that was ever handed out belongs to the future it was handed out for. */
  lemma UnlockedPopsAreSafe(s: State)
    requires Reachable(s)
    ensures s.owner.FiberPending? ==> s.fibers.tail - 1 >= s.fibers.head
    ensures s.thief.HeadAdvanced? && s.thief.frame.isFuture ==> s.fibers.head + 1 <= s.fibers.tail
    ensures forall i :: 0 <= i < |s.log.returned| ==> s.log.returned[i].0 == s.log.returned[i].1
    ensures forall i :: 0 <= i < |s.log.handedOut| ==> s.log.handedOut[i].1 == s.log.handedOut[i].0.fiber
  {
    ReachableInv(s);
    ReadyFibers(s);
  }

  /** The control flow of a party is never stuck on the data: every action whose turn it is can be
      taken.  The two assertions of `Fits` are apart: `PushAssertionsExact`. */
  lemma NeverStuck(s: State, a: Action)
    requires Reachable(s) && Enabled(s, a)
    ensures Ready(s, a)
  {
    ReachableInv(s);
    AlwaysReady(s, a);
  }

  /** A frame the owner gets back, on either path, is the one its own memory slot holds. */
  lemma OwnerPopsItsOwnFrame(s: State)
    requires Reachable(s)
    ensures (s.owner == TailLowered && s.ptr.tail >= s.ptr.exc) || s.owner == SlowKept ==>
      s.open != [] && s.ptr.tail in s.slots && s.slots[s.ptr.tail] == Last(s.open)
  {
    ReachableInv(s);
    ReadyFrames(s);
  }

  /** The slow path says "stolen" exactly when a thief has taken the frame, or the owner returns from
      a frame that it resumed and has nothing detached; then everything it had left behind has been
      taken, so the deque may be emptied. */
  lemma SlowPathDecides(s: State)
    requires Reachable(s) && s.owner == SlowReset
    ensures ControlInv(s)
    ensures !(s.ptr.head < s.ptr.tail + 1) <==> s.open == [] || Last(s.open) in Frames(s.log.stolen)
    ensures !(s.ptr.head < s.ptr.tail + 1) ==> Live(s) == []
  {
    hide Reachable, FrameInv, FiberInv, HandoverInv;
    ReachableInv(s);
    var all := Lineup(s);
    if s.open != [] {
      assert all[|all| - 1] == Last(s.open);
    }
    if Live(s) == [] {
      assert all == Frames(s.log.stolen);
    } else {
      assert forall i :: 0 <= i < |s.log.stolen| ==> Frames(s.log.stolen)[i] == all[i];
    }
  }
}
