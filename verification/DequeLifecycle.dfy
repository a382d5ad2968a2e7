/**
 The life of whole deques: active on a worker, suspended in some worker's pool, resumable in
 some worker's pool, or in limbo, with the moves between them by the suspending worker, by
 thieves and by whoever resumes a suspended deque.  Each critical section (under a worker's
 lock) and each unlocked access that matters is one step of a state machine.

 `place` and `ticket` are for specification: nothing in `Enabled` of the routines' own steps or in
 the fields they write depends on `place`, and `ticket` decides only who may start a resumption.
*/
module DequeLifecycle {
  import opened DequePool
  import opened Wrappers

  /** The two pools of a worker. */
  datatype Kind = Stealable | Resumables

  /** The `fiber` field: NULL, a fiber its worker has not yet switched away from, a resumable one. */
  datatype Fiber = NoFiber | Leaving(w: nat) | Parked

  datatype Place =
    | Active(w: nat)
    | InPool(w: nat, kind: Kind)
    | Limbo                       // suspended with nothing to steal, known only to its resumer
    | Transit(w: nat)             // its worker has switched to another deque, and not placed it yet
    | Held(w: nat)                // taken by `w`, which will make it active
    | Posting(w: nat)             // resumable, about to be added to a pool by `w`

  /** Each non-resumable suspension is to be undone exactly once, by whoever completes the future. */
  datatype Ticket = NoTicket | Wanted | Claimed(w: nat)

  datatype Susp = Susp(self: int, worker: Option<nat>, resumable: bool, fiber: Fiber, empty: bool,
                       place: Place, ticket: Ticket)

  /** Which of the two resuming routines: make_resumable, or resume_suspended with its mode. */
  datatype Goal = ToRevive | ToResume(mode: nat)

  datatype Pc =
    | Running
    | Choosing                                  // suspending; has no deque to switch to yet
    | Switching(next: nat, stamp: nat, marked: bool)   // suspending; has one; the old deque is marked resumable
    | Placing(d: nat, stamp: nat)               // switched; the old deque is not placed yet
    | SwitchingFiber(d: nat, stamp: nat)        // placed; still on the old deque's fiber
    | Jumping(d: nat)                           // mugged a resumable deque
    | Awaiting(d: nat, goal: Goal)              // entered a resuming routine; waits for the fiber to be left
    | Reviving(d: nat, victim: nat)             // make_resumable read worker == victim
    | RevivingFree(d: nat)                      // make_resumable found no worker
    | PostingTo(d: nat, victim: nat)            // make_resumable chose a pool
    | Resuming(d: nat, seen: Option<nat>, mode: nat)   // resume_suspended read worker
    | Got(d: nat, mode: nat)                    // resume_suspended owns the deque

  datatype Worker = Worker(active: nat, suspended: seq<nat>, resumables: seq<nat>, pc: Pc)

  datatype State = State(workers: seq<Worker>, deques: map<nat, Susp>, clock: nat, next: nat)

  datatype Action =
    | Suspend(w: nat) | Choose(w: nat) | Switch(w: nat, empty: bool)
    | PlaceOld(w: nat, victim: nat) | SwitchFiber(w: nat)
    | Jump(w: nat, v: nat) | Land(w: nat)
    | MugEmpty(w: nat, v: nat, i: nat) | StealFrom(w: nat, v: nat, i: nat, last: bool)
    | Await(w: nat, d: nat, goal: Goal) | SeeParked(w: nat) | Revive(w: nat) | AdoptFree(w: nat, victim: nat) | Post(w: nat)
    | MugToResume(w: nat) | GoDirect(w: nat) | GoSuspending(w: nat)

  // ---------------------------------------------------------------- state

  function PoolOf(s: State, v: nat, k: Kind): seq<nat>
    requires v < |s.workers|
  {
    if k == Stealable then s.workers[v].suspended else s.workers[v].resumables
  }

  function WithPool(s: State, v: nat, k: Kind, pool: seq<nat>): State
    requires v < |s.workers|
  {
    s.(workers := s.workers[v := if k == Stealable then s.workers[v].(suspended := pool) else s.workers[v].(resumables := pool)])
  }

  function WithPc(s: State, w: nat, pc: Pc): State
    requires w < |s.workers|
  {
    s.(workers := s.workers[w := s.workers[w].(pc := pc)])
  }

  function With(s: State, d: nat, q: Susp): State {
    s.(deques := s.deques[d := q])
  }

  /** `d` is where its fields say it is. */
  predicate Indexed(s: State, v: nat, k: Kind, d: nat) {
    && v < |s.workers| && d in s.deques
    && var pool := PoolOf(s, v, k);
       0 <= s.deques[d].self < |pool| && pool[s.deques[d].self] == d && pool[|pool| - 1] in s.deques
  }

  function Removed(s: State, v: nat, k: Kind, d: nat, place: Place): State
    requires Indexed(s, v, k, d)
  {
    var pool, i := PoolOf(s, v, k), s.deques[d].self;
    var last := pool[|pool| - 1];
    var ds := s.deques[last := s.deques[last].(self := i)];
    WithPool(s, v, k, SwapRemove(pool, i)).(
      deques := ds[d := ds[d].(self := INVALID_DEQUE_INDEX, worker := None, place := place)])
  }

  function Added(s: State, v: nat, k: Kind, d: nat): State
    requires v < |s.workers| && d in s.deques
  {
    var pool := PoolOf(s, v, k);
    With(WithPool(s, v, k, pool + [d]), d, s.deques[d].(self := |pool|, worker := Some(v), place := InPool(v, k)))
  }

  /** What the mugging routine asserts: it holds the owner's lock, the deque has a fiber, and it is
      in the pool its flag says. */
  predicate Muggable(s: State, v: nat, d: nat) {
    && d in s.deques && s.deques[d].worker == Some(v) && s.deques[d].fiber != NoFiber
    && Indexed(s, v, if s.deques[d].resumable then Resumables else Stealable, d)
  }

  function Mugged(s: State, v: nat, d: nat, place: Place): State
    requires Muggable(s, v, d)
  {
    Removed(s, v, if s.deques[d].resumable then Resumables else Stealable, d, place)
  }

  function Last(pool: seq<nat>): nat
    requires pool != []
  {
    pool[|pool| - 1]
  }

  // ---------------------------------------------------------------- steps

  /** The control flow of each party, and the guards of its waiting loops. */
  predicate Enabled(s: State, a: Action) {
    && a.w < |s.workers|
    && var me := s.workers[a.w];
    match a
    case Suspend(_) => me.pc == Running
    case Choose(_) => me.pc == Choosing
    case Switch(_, _) => me.pc.Switching?
    case PlaceOld(_, victim) => me.pc.Placing? && victim < |s.workers|
    case SwitchFiber(_) => me.pc.SwitchingFiber? && me.active in s.deques && s.deques[me.active].fiber == Parked
    case Jump(_, v) => me.pc == Running && v < |s.workers| && s.workers[v].resumables != []
    case Land(_) => me.pc.Jumping? && me.pc.d in s.deques && s.deques[me.pc.d].fiber == Parked
    case MugEmpty(_, v, i) => me.pc == Running && Chosen(s, v, i) && s.deques[s.workers[v].suspended[i]].empty
    case StealFrom(_, v, i, _) => me.pc == Running && Chosen(s, v, i) && !s.deques[s.workers[v].suspended[i]].empty
    case Await(_, d, goal) =>
      me.pc == Running && d in s.deques && s.deques[d].ticket == Wanted && (goal.ToResume? ==> goal.mode <= 2)
    case SeeParked(_) => me.pc.Awaiting? && me.pc.d in s.deques && s.deques[me.pc.d].fiber == Parked
    case Revive(_) => me.pc.Reviving?
    case AdoptFree(_, victim) => me.pc.RevivingFree? && victim < |s.workers|
    case Post(_) => me.pc.PostingTo?
    case MugToResume(_) => me.pc.Resuming?
    case GoDirect(_) => me.pc.Got? && me.pc.mode == 2
    case GoSuspending(_) => me.pc.Got? && me.pc.mode < 2
  }

  /** A thief looks at the suspended pool only when the resumable one is empty. */
  predicate Chosen(s: State, v: nat, i: nat) {
    && v < |s.workers| && s.workers[v].resumables == [] && i < |s.workers[v].suspended|
    && s.workers[v].suspended[i] in s.deques
  }

  /** An active deque should know that it is, know its worker, and have no fiber. */
  predicate KnowsItIsActive(s: State, w: nat) {
    && w < |s.workers| && s.workers[w].active in s.deques
    && var q := s.deques[s.workers[w].active];
       q.self == ACTIVE_DEQUE_INDEX && q.worker == Some(w) && q.fiber == NoFiber
  }

  /** A deque that can become active belongs to nobody and has a fiber. */
  predicate CanActivate(s: State, w: nat, d: nat) {
    && d in s.deques && s.deques[d].worker == None && s.deques[d].fiber != NoFiber
    && w < |s.workers| && s.workers[w].active in s.deques && s.workers[w].active != d
  }

  /** The assertions of the routines. */
  predicate Ready(s: State, a: Action)
    requires Enabled(s, a)
  {
    var me := s.workers[a.w];
    match a
    case Suspend(w) => KnowsItIsActive(s, w)
    case Choose(w) => me.resumables != [] ==> Muggable(s, w, Last(me.resumables)) && s.deques[Last(me.resumables)].resumable
    case Switch(w, _) => CanActivate(s, w, me.pc.next) && !s.deques[me.pc.next].resumable
    case PlaceOld(_, victim) =>
      && me.pc.d in s.deques && s.deques[me.pc.d].self == ACTIVE_DEQUE_INDEX
      && me.pc.d !in s.workers[victim].suspended + s.workers[victim].resumables
    case SwitchFiber(w) => me.pc.d in s.deques && s.deques[me.pc.d].fiber == Leaving(w) && me.pc.d != me.active
    case Jump(_, v) => Muggable(s, v, Last(s.workers[v].resumables)) && s.deques[Last(s.workers[v].resumables)].resumable
    case Land(w) => CanActivate(s, w, me.pc.d)
    case MugEmpty(_, v, i) => Muggable(s, v, s.workers[v].suspended[i]) && !s.deques[s.workers[v].suspended[i]].resumable
    case StealFrom(_, _, _, _) => true
    case Await(_, d, _) => !s.deques[d].resumable
    case SeeParked(_) => true
    case Revive(_) =>
      && me.pc.d in s.deques
      && (s.deques[me.pc.d].worker != None ==> s.deques[me.pc.d].worker == Some(me.pc.victim) && Indexed(s, me.pc.victim, Stealable, me.pc.d))
    case AdoptFree(_, _) => me.pc.d in s.deques && s.deques[me.pc.d].self == INVALID_DEQUE_INDEX
    case Post(_) =>
      && me.pc.d in s.deques && s.deques[me.pc.d].resumable && me.pc.victim < |s.workers|
      && me.pc.d !in s.workers[me.pc.victim].suspended + s.workers[me.pc.victim].resumables
    case MugToResume(_) =>
      && me.pc.d in s.deques
      && (me.pc.seen.Some? && s.deques[me.pc.d].worker != None ==>
            s.deques[me.pc.d].worker == me.pc.seen && Muggable(s, me.pc.seen.value, me.pc.d))
      && (me.pc.seen == None || s.deques[me.pc.d].worker == None ==> s.deques[me.pc.d].self == INVALID_DEQUE_INDEX)
    case GoDirect(w) => CanActivate(s, w, me.pc.d)
    case GoSuspending(w) => KnowsItIsActive(s, w) && CanActivate(s, w, me.pc.d) && s.deques[me.pc.d].self == INVALID_DEQUE_INDEX
  }

  /** `d` becomes the active deque of `w`, and the old one is freed. */
  function Activated(s: State, w: nat, d: nat): State
    requires w < |s.workers| && d in s.deques
  {
    s.(workers := s.workers[w := s.workers[w].(active := d, pc := Running)],
       deques := s.deques[d := s.deques[d].(self := ACTIVE_DEQUE_INDEX, worker := Some(w), resumable := false,
                                            fiber := NoFiber, place := Active(w))] - {s.workers[w].active})
  }

  function Apply(s: State, a: Action): State
    requires Enabled(s, a) && Ready(s, a)
  {
    var me := s.workers[a.w];
    match a
    case Suspend(w) => WithPc(With(s, me.active, s.deques[me.active].(ticket := Wanted)), w, Choosing)
    case Choose(w) => ApplyChoose(s, w)
    case Switch(w, empty) => ApplySwitch(s, w, me.pc.next, me.pc.stamp, empty)
    case PlaceOld(w, victim) => ApplyPlace(s, w, victim, me.pc.d, me.pc.stamp)
    case SwitchFiber(w) =>
      WithPc(With(With(s, me.active, s.deques[me.active].(fiber := NoFiber)),
                  me.pc.d, s.deques[me.pc.d].(fiber := Parked)), w, Running)
    case Jump(w, v) =>
      var d := Last(s.workers[v].resumables);
      WithPc(Mugged(s, v, d, Held(w)), w, Jumping(d))
    case Land(w) => Activated(s, w, me.pc.d)
    case MugEmpty(_, v, i) => Mugged(s, v, s.workers[v].suspended[i], Limbo)
    case StealFrom(_, v, i, last) =>
      var d := s.workers[v].suspended[i];
      With(s, d, s.deques[d].(empty := last))
    case Await(w, d, goal) => WithPc(With(s, d, s.deques[d].(ticket := Claimed(w))), w, Awaiting(d, goal))
    case SeeParked(w) => WithPc(s, w, AfterWait(me.pc.d, me.pc.goal, s.deques[me.pc.d].worker))
    case Revive(w) => ApplyRevive(s, w, me.pc.d, me.pc.victim)
    case AdoptFree(w, victim) =>
      WithPc(With(s, me.pc.d, s.deques[me.pc.d].(resumable := true, worker := Some(victim), place := Posting(w), ticket := NoTicket)),
             w, PostingTo(me.pc.d, victim))
    case Post(w) => WithPc(Added(s, me.pc.victim, Resumables, me.pc.d), w, Running)
    case MugToResume(w) => ApplyMugToResume(s, w, me.pc.d, me.pc.seen, me.pc.mode)
    case GoDirect(w) => Activated(s, w, me.pc.d)
    case GoSuspending(w) =>
      var q := s.deques[me.active].(resumable := me.pc.mode == 1, ticket := if me.pc.mode == 1 then NoTicket else Wanted);
      WithPc(With(s, me.active, q), w, Switching(me.pc.d, s.clock, me.pc.mode == 1)).(clock := s.clock + 1)
  }

  /** With the fiber left, what the resumer does is decided by one look at the deque's worker. */
  function AfterWait(d: nat, goal: Goal, seen: Option<nat>): Pc {
    if goal.ToResume? then Resuming(d, seen, goal.mode)
    else if seen == None then RevivingFree(d)
    else Reviving(d, seen.value)
  }

  /** Under the worker's own lock: one of its resumable deques if there is one, else a new deque. */
  function ApplyChoose(s: State, w: nat): State
    requires Enabled(s, Choose(w)) && Ready(s, Choose(w))
  {
    var me := s.workers[w];
    if me.resumables != [] then
      var d := Last(me.resumables);
      var t := Mugged(s, w, d, Held(w));
      WithPc(With(t, d, t.deques[d].(resumable := false)), w, Switching(d, s.clock, false)).(clock := s.clock + 1)
    else
      WithPc(With(s, s.next, Susp(0, None, false, Parked, true, Held(w), NoTicket)), w, Switching(s.next, s.clock, false)).(
        clock := s.clock + 1, next := s.next + 1)
  }

  function ApplySwitch(s: State, w: nat, d: nat, stamp: nat, empty: bool): State
    requires w < |s.workers| && CanActivate(s, w, d)
  {
    var old_ := s.workers[w].active;
    var q := s.deques[old_];
    s.(workers := s.workers[w := s.workers[w].(active := d, pc := Placing(old_, stamp))],
       deques := s.deques[old_ := q.(fiber := Leaving(w), empty := empty, place := Transit(w))]
                         [d := s.deques[d].(self := ACTIVE_DEQUE_INDEX, worker := Some(w), place := Active(w))])
  }

  /** To a pool if it is resumable or has something to steal, else nowhere. */
  function ApplyPlace(s: State, w: nat, victim: nat, d: nat, stamp: nat): State
    requires w < |s.workers| && victim < |s.workers| && d in s.deques
  {
    var q := s.deques[d];
    WithPc(if q.resumable then Added(s, victim, Resumables, d)
           else if !q.empty then Added(s, victim, Stealable, d)
           else With(s, d, q.(self := INVALID_DEQUE_INDEX, worker := None, place := Limbo)),
           w, SwitchingFiber(d, stamp))
  }

  /** With the victim's lock held, look again: it may have been mugged meanwhile. */
  function ApplyRevive(s: State, w: nat, d: nat, victim: nat): State
    requires w < |s.workers| && d in s.deques && (s.deques[d].worker != None ==> Indexed(s, victim, Stealable, d))
  {
    if s.deques[d].worker == None then WithPc(s, w, RevivingFree(d))
    else
      var t := Removed(s, victim, Stealable, d, Limbo);
      WithPc(Added(With(t, d, t.deques[d].(resumable := true, ticket := NoTicket)), victim, Resumables, d), w, Running)
  }

  function ApplyMugToResume(s: State, w: nat, d: nat, seen: Option<nat>, mode: nat): State
    requires w < |s.workers| && d in s.deques
    requires seen.Some? && s.deques[d].worker != None ==> Muggable(s, seen.value, d)
  {
    var t := if seen.Some? && s.deques[d].worker != None then Mugged(s, seen.value, d, Held(w))
             else With(s, d, s.deques[d].(place := Held(w)));
    WithPc(With(t, d, t.deques[d].(ticket := NoTicket)), w, Got(d, mode))
  }

  // ---------------------------------------------------------------- invariants

  /** Pools and the deques in them agree. */
  ghost predicate Pools(s: State) {
    && (forall v: nat, k, i :: v < |s.workers| && 0 <= i < |PoolOf(s, v, k)| ==>
          && PoolOf(s, v, k)[i] in s.deques
          && var q := s.deques[PoolOf(s, v, k)[i]]; q.place == InPool(v, k) && q.self == i && q.worker == Some(v))
    && (forall d :: d in s.deques && s.deques[d].place.InPool? ==>
          && s.deques[d].place.w < |s.workers|
          && var pool := PoolOf(s, s.deques[d].place.w, s.deques[d].place.kind);
             0 <= s.deques[d].self < |pool| && pool[s.deques[d].self] == d)
  }

  predicate Suspending(pc: Pc) {
    pc.Placing? || pc.SwitchingFiber?
  }

  /** The worker's active deque is one that someone is to resume. */
  predicate Owing(pc: Pc) {
    pc.Choosing? || (pc.Switching? && !pc.marked)
  }

  predicate Claiming(pc: Pc, d: nat) {
    match pc
    case Awaiting(e, _) => e == d
    case Reviving(e, _) => e == d
    case RevivingFree(e) => e == d
    case Resuming(e, _, _) => e == d
    case _ => false
  }

  predicate Free(q: Susp) {
    q.self == INVALID_DEQUE_INDEX && q.worker == None
  }

  /** What a deque's fields say in each place. */
  predicate PlaceOk(s: State, d: nat)
    requires d in s.deques
  {
    var q := s.deques[d];
    match q.place
    case Active(w) =>
      && w < |s.workers| && s.workers[w].active == d && q.self == ACTIVE_DEQUE_INDEX && q.worker == Some(w)
      && (q.ticket == NoTicket <==> !Owing(s.workers[w].pc))
      && (q.resumable <==> s.workers[w].pc.Switching? && s.workers[w].pc.marked) && (q.fiber != NoFiber ==> Suspending(s.workers[w].pc))
    case InPool(_, k) => q.resumable == (k == Resumables) && q.fiber != NoFiber && (q.ticket == NoTicket <==> q.resumable)
    case Limbo => Free(q) && !q.resumable && q.fiber != NoFiber && q.ticket != NoTicket && q.empty
    case Transit(w) =>
      && w < |s.workers| && s.workers[w].pc.Placing? && s.workers[w].pc.d == d && q.self == ACTIVE_DEQUE_INDEX
      && q.worker == Some(w) && q.fiber == Leaving(w) && (q.ticket == NoTicket <==> q.resumable)
    case Held(w) =>
      && w < |s.workers| && q.worker == None && q.ticket == NoTicket && q.fiber != NoFiber
      && (match s.workers[w].pc
          case Switching(e, _, _) => e == d && !q.resumable
          case Jumping(e) => e == d && q.resumable && Free(q)
          case Got(e, _) => e == d && !q.resumable && Free(q) && q.fiber == Parked
          case _ => false)
    case Posting(w) =>
      && w < |s.workers| && s.workers[w].pc.PostingTo? && s.workers[w].pc.d == d && q.self == INVALID_DEQUE_INDEX
      && q.worker == Some(s.workers[w].pc.victim) && q.resumable && q.ticket == NoTicket && q.fiber == Parked
  }

  predicate TicketOk(s: State, d: nat)
    requires d in s.deques
  {
    var q := s.deques[d];
    && (q.ticket.Claimed? ==>
          && q.ticket.w < |s.workers| && Claiming(s.workers[q.ticket.w].pc, d)
          && (!s.workers[q.ticket.w].pc.Awaiting? ==> q.fiber == Parked))
    && (q.fiber.Leaving? ==> q.fiber.w < |s.workers| && Suspending(s.workers[q.fiber.w].pc) && s.workers[q.fiber.w].pc.d == d)
  }

  predicate DequeOk(s: State, d: nat)
    requires d in s.deques
  {
    d < s.next && PlaceOk(s, d) && TicketOk(s, d)
  }

  ghost predicate Deques(s: State) {
    forall d :: d in s.deques ==> DequeOk(s, d)
  }

  predicate ThreadOk(s: State, w: nat)
    requires w < |s.workers|
  {
    var me := s.workers[w];
    && me.active in s.deques && s.deques[me.active].place == Active(w)
    && match me.pc
       case Running => true
       case Choosing => true
       case Switching(d, _, _) => d in s.deques && s.deques[d].place == Held(w)
       case Placing(d, _) => d in s.deques && s.deques[d].place == Transit(w) && s.deques[me.active].fiber != NoFiber
       case SwitchingFiber(d, _) => d in s.deques && s.deques[d].fiber == Leaving(w) && s.deques[me.active].fiber != NoFiber
       case Jumping(d) => d in s.deques && s.deques[d].place == Held(w)
       case Awaiting(d, goal) => d in s.deques && s.deques[d].ticket == Claimed(w) && (goal.ToResume? ==> goal.mode <= 2)
       case Reviving(d, v) => d in s.deques && s.deques[d].ticket == Claimed(w) && (s.deques[d].place in {InPool(v, Stealable), Limbo})
       case RevivingFree(d) => d in s.deques && s.deques[d].ticket == Claimed(w) && s.deques[d].place == Limbo
       case PostingTo(d, v) => d in s.deques && s.deques[d].place == Posting(w) && v < |s.workers|
       case Resuming(d, v, mode) =>
         && d in s.deques && s.deques[d].ticket == Claimed(w) && mode <= 2
         && (if v == None then s.deques[d].place == Limbo else s.deques[d].place in {InPool(v.value, Stealable), Limbo})
       case Got(d, mode) => d in s.deques && s.deques[d].place == Held(w) && mode <= 2
  }

  /** The deque a suspending worker switches to. */
  function Target(me: Worker): nat
    requires Stamped(me.pc)
  {
    if me.pc.Switching? then me.pc.next else me.active
  }

  predicate Stamped(pc: Pc) {
    pc.Switching? || Suspending(pc)
  }

  /** A worker whose new deque's fiber is still being left by another waits for one that chose earlier. */
  predicate WaitsForEarlier(s: State, w: nat)
    requires w < |s.workers|
  {
    var me := s.workers[w];
    Stamped(me.pc) ==>
      && me.pc.stamp < s.clock
      && (Target(me) in s.deques && s.deques[Target(me)].fiber.Leaving? ==>
            var v := s.deques[Target(me)].fiber.w;
            v < |s.workers| && Suspending(s.workers[v].pc) && s.workers[v].pc.stamp < me.pc.stamp)
  }

  predicate WorkerOk(s: State, w: nat)
    requires w < |s.workers|
  {
    ThreadOk(s, w) && WaitsForEarlier(s, w)
  }

  ghost predicate Workers(s: State) {
    forall w :: 0 <= w < |s.workers| ==> WorkerOk(s, w)
  }

  ghost predicate Inv(s: State) {
    Pools(s) && Deques(s) && Workers(s)
  }

  // ---------------------------------------------------------------- the assertions hold

  lemma InSlot(s: State, v: nat, k: Kind, i: nat)
    requires Pools(s) && Deques(s) && v < |s.workers| && i < |PoolOf(s, v, k)|
    ensures var d := PoolOf(s, v, k)[i]; d in s.deques && s.deques[d].place == InPool(v, k) && Muggable(s, v, d)
  {
    var last := PoolOf(s, v, k)[|PoolOf(s, v, k)| - 1];
    assert last in s.deques;
    assert DequeOk(s, PoolOf(s, v, k)[i]);
  }

  lemma PlacedInPool(s: State, d: nat)
    requires Pools(s) && Deques(s) && d in s.deques && s.deques[d].place.InPool?
    ensures Muggable(s, s.deques[d].place.w, d)
  {
    InSlot(s, s.deques[d].place.w, s.deques[d].place.kind, s.deques[d].self);
  }

  lemma NotInPool(s: State, d: nat, v: nat)
    requires Pools(s) && d in s.deques && !s.deques[d].place.InPool? && v < |s.workers|
    ensures d !in s.workers[v].suspended + s.workers[v].resumables
  {
    assert PoolOf(s, v, Stealable) == s.workers[v].suspended && PoolOf(s, v, Resumables) == s.workers[v].resumables;
  }

  /** No assertion of the suspend, resume and mug routines ever fires. */
  lemma AlwaysReady(s: State, a: Action)
    requires Inv(s) && Enabled(s, a)
    ensures Ready(s, a)
  {
    hide WaitsForEarlier, Pools;
    var me := s.workers[a.w];
    assert WorkerOk(s, a.w);
    assert DequeOk(s, me.active);
    match a
    case Choose(w) =>
      if me.resumables != [] { InSlot(s, w, Resumables, |me.resumables| - 1); }
    case Jump(_, v) =>
      InSlot(s, v, Resumables, |s.workers[v].resumables| - 1);
    case MugEmpty(_, v, i) =>
      InSlot(s, v, Stealable, i);
    case PlaceOld(_, victim) => NotInPool(s, me.pc.d, victim);
    case Post(_) => NotInPool(s, me.pc.d, me.pc.victim);
    case Revive(_) => 
      if s.deques[me.pc.d].place.InPool? { PlacedInPool(s, me.pc.d); }
    case MugToResume(_) => 
      if s.deques[me.pc.d].place.InPool? { PlacedInPool(s, me.pc.d); }
    case _ =>
  }

  // ---------------------------------------------------------------- pools are kept

  lemma PoolsRemoved(s: State, v: nat, k: Kind, d: nat, place: Place)
    requires Pools(s) && Indexed(s, v, k, d) && !place.InPool?
    ensures Pools(Removed(s, v, k, d, place))
  {
    var t := Removed(s, v, k, d, place);
    var pool, i := PoolOf(s, v, k), s.deques[d].self;
    forall u: nat, j, m | u < |t.workers| && 0 <= m < |PoolOf(t, u, j)|
      ensures PoolOf(t, u, j)[m] in t.deques
      ensures var q := t.deques[PoolOf(t, u, j)[m]]; q.place == InPool(u, j) && q.self == m && q.worker == Some(u)
    {
      if u == v && j == k {
        var from := if m == i then |pool| - 1 else m;
        assert PoolOf(t, u, j)[m] == pool[from];
      } else {
        assert PoolOf(t, u, j)[m] == PoolOf(s, u, j)[m];
      }
    }
    forall e | e in t.deques && t.deques[e].place.InPool?
      ensures t.deques[e].place.w < |t.workers|
      ensures var to := PoolOf(t, t.deques[e].place.w, t.deques[e].place.kind); 0 <= t.deques[e].self < |to| && to[t.deques[e].self] == e
    {
      assert e != d;
      assert pool[|pool| - 1] == PoolOf(s, v, k)[|pool| - 1];
    }
  }

  lemma PoolsAdded(s: State, v: nat, k: Kind, d: nat)
    requires Pools(s) && v < |s.workers| && d in s.deques && !s.deques[d].place.InPool?
    ensures Pools(Added(s, v, k, d))
  {
    var t := Added(s, v, k, d);
    forall u: nat, j, m | u < |t.workers| && 0 <= m < |PoolOf(t, u, j)|
      ensures PoolOf(t, u, j)[m] in t.deques
      ensures var q := t.deques[PoolOf(t, u, j)[m]]; q.place == InPool(u, j) && q.self == m && q.worker == Some(u)
    {
      if !(u == v && j == k && m == |PoolOf(s, v, k)|) {
        assert PoolOf(t, u, j)[m] == PoolOf(s, u, j)[m];
      }
    }
  }

  /** Same pools, and the same fields for the deques in them. */
  lemma PoolsSame(s: State, t: State)
    requires Pools(s) && |t.workers| == |s.workers|
    requires forall v :: 0 <= v < |s.workers| ==>
      t.workers[v].suspended == s.workers[v].suspended && t.workers[v].resumables == s.workers[v].resumables
    requires forall d :: d in s.deques && s.deques[d].place.InPool? ==>
      && d in t.deques && t.deques[d].place == s.deques[d].place
      && t.deques[d].self == s.deques[d].self && t.deques[d].worker == s.deques[d].worker
    requires forall d :: d in t.deques && t.deques[d].place.InPool? ==> d in s.deques && s.deques[d].place.InPool?
    ensures Pools(t)
  {
    forall u: nat, j, m | u < |t.workers| && 0 <= m < |PoolOf(t, u, j)|
      ensures PoolOf(t, u, j)[m] in t.deques
      ensures var q := t.deques[PoolOf(t, u, j)[m]]; q.place == InPool(u, j) && q.self == m && q.worker == Some(u)
    {
      assert PoolOf(t, u, j)[m] == PoolOf(s, u, j)[m];
    }
  }

  // ---------------------------------------------------------------- each step keeps the rest

  /** Removal changes `d`, and the position of one other deque in the same pool. */
  lemma RemovedEffect(s: State, v: nat, k: Kind, d: nat, place: Place)
    requires Pools(s) && Indexed(s, v, k, d)
    ensures var t := Removed(s, v, k, d, place);
      && t.deques.Keys == s.deques.Keys && |t.workers| == |s.workers| && t.clock == s.clock && t.next == s.next
      && t.deques[d] == s.deques[d].(self := INVALID_DEQUE_INDEX, worker := None, place := place)
      && (forall e :: e in s.deques && e != d ==>
            || t.deques[e] == s.deques[e]
            || (s.deques[e].place == InPool(v, k) && t.deques[e] == s.deques[e].(self := t.deques[e].self)))
      && (forall w :: 0 <= w < |s.workers| ==> t.workers[w].active == s.workers[w].active && t.workers[w].pc == s.workers[w].pc)
  {
    var pool := PoolOf(s, v, k);
    assert pool[|pool| - 1] in s.deques && s.deques[pool[|pool| - 1]].place == InPool(v, k);
  }

  /** `q` names worker `u` in its place, fiber or ticket. */
  predicate Mentions(q: Susp, u: nat) {
    || (match q.place
        case Active(w) => w == u
        case Transit(w) => w == u
        case Held(w) => w == u
        case Posting(w) => w == u
        case _ => false)
    || q.fiber == Leaving(u) || q.ticket == Claimed(u)
  }

  function PcDeque(pc: Pc): Option<nat> {
    match pc
    case Running => None
    case Choosing => None
    case Switching(d, _, _) => Some(d)
    case Placing(d, _) => Some(d)
    case SwitchingFiber(d, _) => Some(d)
    case Jumping(d) => Some(d)
    case Awaiting(d, _) => Some(d)
    case Reviving(d, _) => Some(d)
    case RevivingFree(d) => Some(d)
    case PostingTo(d, _) => Some(d)
    case Resuming(d, _, _) => Some(d)
    case Got(d, _) => Some(d)
  }

  ghost predicate Rest(s: State) {
    Deques(s) && Workers(s)
  }

  /** A deque that names a worker is that worker's active deque or the one its steps are about. */
  lemma MentionedIsNear(s: State, e: nat, w: nat)
    requires e in s.deques && DequeOk(s, e) && w < |s.workers| && Mentions(s.deques[e], w)
    ensures e == s.workers[w].active || PcDeque(s.workers[w].pc) == Some(e)
  {
  }

  /** And the other way around. */
  lemma NearIsMentioned(s: State, w: nat)
    requires w < |s.workers| && ThreadOk(s, w)
    ensures s.workers[w].active in s.deques && Mentions(s.deques[s.workers[w].active], w)
    ensures var d := PcDeque(s.workers[w].pc); d.Some? ==> d.value in s.deques && Mentions(s.deques[d.value], w)
  {
  }

  /** Equal but for the position in a pool. */
  predicate Alike(q: Susp, r: Susp) {
    q == r || (q.place.InPool? && r == q.(self := r.self))
  }

  /** A step of `w` that changes only its own control and the deques in `ds`. */
  ghost predicate Local(s: State, t: State, w: nat, ds: set<nat>) {
    && w < |s.workers| == |t.workers| && s.clock <= t.clock && s.next <= t.next
    && (forall u :: 0 <= u < |s.workers| && u != w ==>
          t.workers[u].active == s.workers[u].active && t.workers[u].pc == s.workers[u].pc)
    && s.workers[w].active in ds && (PcDeque(s.workers[w].pc).Some? ==> PcDeque(s.workers[w].pc).value in ds)
    && (forall e :: e in s.deques && e !in ds ==> e in t.deques && Alike(s.deques[e], t.deques[e]))
    && (forall e :: e in t.deques && e !in ds ==> e in s.deques)
  }

  lemma LocalDeque(s: State, t: State, w: nat, ds: set<nat>, e: nat)
    requires Local(s, t, w, ds) && e in s.deques && e !in ds && DequeOk(s, e)
    ensures DequeOk(t, e)
  {
    if Mentions(s.deques[e], w) { MentionedIsNear(s, e, w); }
  }

  function PlaceWorker(p: Place): Option<nat> {
    match p
    case Active(w) => Some(w)
    case Transit(w) => Some(w)
    case Held(w) => Some(w)
    case Posting(w) => Some(w)
    case _ => None
  }

  /** What workers other than `w` rely on about a deque is kept when it goes from `q` to `r`. */
  predicate KeepsOthers(q: Susp, r: Susp, w: nat) {
    && (PlaceWorker(q.place).Some? && PlaceWorker(q.place) != Some(w) ==>
          r.place == q.place && (q.fiber != NoFiber ==> r.fiber != NoFiber))
    && (q.fiber.Leaving? && q.fiber.w != w ==> r.fiber == q.fiber)
    && (q.ticket.Claimed? && q.ticket.w != w ==>
          r.ticket == q.ticket && (PlaceWorker(q.place) == None ==> r.place == q.place || r.place == Limbo))
    && (r.fiber.Leaving? ==> r.fiber == q.fiber || r.place == Transit(w))
  }

  predicate NamesOnly(q: Susp, w: nat) {
    && (PlaceWorker(q.place).Some? ==> PlaceWorker(q.place) == Some(w))
    && (q.fiber.Leaving? ==> q.fiber.w == w) && (q.ticket.Claimed? ==> q.ticket.w == w)
  }

  /** The deques in `ds` change in ways that other workers do not mind. */
  ghost predicate Considerate(s: State, t: State, w: nat, ds: set<nat>)
    requires w < |s.workers| == |t.workers|
  {
    && (forall e :: e in ds && e in s.deques ==>
          if e in t.deques then KeepsOthers(s.deques[e], t.deques[e], w) else NamesOnly(s.deques[e], w))
    && (Suspending(s.workers[w].pc) && Suspending(t.workers[w].pc) ==> s.workers[w].pc.stamp == t.workers[w].pc.stamp)
  }

  lemma KeptDeque(s: State, t: State, w: nat, ds: set<nat>, u: nat, e: nat)
    requires Local(s, t, w, ds) && Considerate(s, t, w, ds) && u < |s.workers| && u != w
    requires e in s.deques && Mentions(s.deques[e], u)
    ensures e in t.deques && (Alike(s.deques[e], t.deques[e]) || KeepsOthers(s.deques[e], t.deques[e], w))
  {
  }

  lemma KeptThread(s: State, t: State, w: nat, ds: set<nat>, u: nat)
    requires Local(s, t, w, ds) && Considerate(s, t, w, ds) && u < |s.workers| && u != w && ThreadOk(s, u)
    ensures ThreadOk(t, u)
  {
    NearIsMentioned(s, u);
    KeptDeque(s, t, w, ds, u, s.workers[u].active);
    var d := PcDeque(s.workers[u].pc);
    if d.Some? { KeptDeque(s, t, w, ds, u, d.value); }
    hide Local, Considerate, Mentions;
  }

  lemma KeptWait(s: State, t: State, w: nat, ds: set<nat>, u: nat)
    requires Local(s, t, w, ds) && Considerate(s, t, w, ds) && u < |s.workers| && u != w && WorkerOk(s, u) && Deques(t)
    ensures WaitsForEarlier(t, u)
  {
    NearIsMentioned(s, u);
    if Stamped(s.workers[u].pc) {
      var e := Target(s.workers[u]);
      KeptDeque(s, t, w, ds, u, e);
      assert DequeOk(t, e);
    }
  }

  lemma LocalStep(s: State, t: State, w: nat, ds: set<nat>)
    requires Rest(s) && Local(s, t, w, ds) && Considerate(s, t, w, ds)
    requires forall e :: e in ds && e in t.deques ==> DequeOk(t, e)
    requires WorkerOk(t, w)
    ensures Rest(t)
  {
    hide ThreadOk, WaitsForEarlier, DequeOk, Considerate;
    forall e | e in t.deques ensures DequeOk(t, e) {
      if e !in ds { LocalDeque(s, t, w, ds, e); }
    }
    forall u | 0 <= u < |t.workers| ensures WorkerOk(t, u) {
      if u != w {
        assert WorkerOk(s, u);
        KeptThread(s, t, w, ds, u);
        KeptWait(s, t, w, ds, u);
      }
    }
  }

  /** As `LocalStep`, for a step about one deque besides the active one. */
  lemma LocalStepAbout(s: State, t: State, w: nat, d: nat)
    requires Rest(s) && w < |s.workers| && Local(s, t, w, {s.workers[w].active, d})
    requires var a := s.workers[w].active;
      && a in s.deques && a in t.deques && d in t.deques
      && DequeOk(t, a) && DequeOk(t, d) && KeepsOthers(s.deques[a], t.deques[a], w)
      && (d in s.deques ==> KeepsOthers(s.deques[d], t.deques[d], w))
    requires Suspending(s.workers[w].pc) && Suspending(t.workers[w].pc) ==> s.workers[w].pc.stamp == t.workers[w].pc.stamp
    requires WorkerOk(t, w)
    ensures Rest(t)
  {
    hide Rest, DequeOk, WorkerOk, KeepsOthers;
    LocalStep(s, t, w, {s.workers[w].active, d});
  }

  /** The active deque, when the step does not touch it. */
  lemma ActiveKept(s: State, t: State, w: nat, ds: set<nat>)
    requires Local(s, t, w, ds) && ThreadOk(s, w) && DequeOk(s, s.workers[w].active)
    requires var a := s.workers[w].active; t.workers[w].active == a && a in t.deques && t.deques[a] == s.deques[a]
    requires Suspending(s.workers[w].pc) ==> Suspending(t.workers[w].pc)
    requires Owing(s.workers[w].pc) == Owing(t.workers[w].pc)
    requires (s.workers[w].pc.Switching? && s.workers[w].pc.marked) == (t.workers[w].pc.Switching? && t.workers[w].pc.marked)
    requires s.deques[s.workers[w].active].fiber == Leaving(w) ==> !Suspending(s.workers[w].pc)
    ensures var a := s.workers[w].active; DequeOk(t, a) && KeepsOthers(s.deques[a], t.deques[a], w)
  {
  }

  /** Where a worker is when it takes a step. */
  lemma PcOf(s: State, a: Action)
    requires Enabled(s, a)
    ensures a.w < |s.workers|
    ensures var pc := s.workers[a.w].pc;
      match a
      case Choose(_) => pc == Choosing
      case Switch(_, _) => pc.Switching?
      case PlaceOld(_, _) => pc.Placing?
      case SwitchFiber(_) => pc.SwitchingFiber?
      case Land(_) => pc.Jumping?
      case SeeParked(_) => pc.Awaiting?
      case Revive(_) => pc.Reviving?
      case AdoptFree(_, _) => pc.RevivingFree?
      case Post(_) => pc.PostingTo?
      case MugToResume(_) => pc.Resuming?
      case GoDirect(_) => pc.Got?
      case GoSuspending(_) => pc.Got?
      case _ => pc == Running
  {
  }

  lemma SuspendEffect(s: State, w: nat)
    requires Rest(s) && Enabled(s, Suspend(w)) && Ready(s, Suspend(w))
    ensures var t := Apply(s, Suspend(w)); var a := s.workers[w].active;
      && Local(s, t, w, {a}) && a in s.deques && t.workers[w].active == s.workers[w].active
      && s.workers[w].pc == Running && t.workers[w].pc == Choosing && t.clock == s.clock && t.next == s.next
      && t.deques == s.deques[a := s.deques[a].(ticket := Wanted)]
  {
    assert WorkerOk(s, w);
    hide DequeOk, PlaceOk, WorkerOk, Rest;
  }

  lemma RestSuspend(s: State, w: nat)
    requires Rest(s) && Enabled(s, Suspend(w)) && Ready(s, Suspend(w))
    ensures Rest(Apply(s, Suspend(w)))
  {
    var a := s.workers[w].active;
    var t := Apply(s, Suspend(w));
    SuspendEffect(s, w);
    hide Enabled, Ready, Apply;
    assert WorkerOk(s, w);
    assert DequeOk(s, a);
    hide Deques, Workers, Pools, Local;
    LocalStepAbout(s, t, w, a);
  }

  lemma ChooseNewEffect(s: State, w: nat)
    requires Rest(s) && Enabled(s, Choose(w)) && Ready(s, Choose(w))
    requires s.workers[w].resumables == []
    ensures var t := Apply(s, Choose(w)); var a := s.workers[w].active; var d := s.next;
      && Local(s, t, w, {a, d}) && a in s.deques && t.workers[w].active == s.workers[w].active
      && t.workers[w].pc == Switching(s.next, s.clock, false) && t.clock == s.clock + 1 && t.next == s.next + 1
      && t.deques == s.deques[d := Susp(0, None, false, Parked, true, Held(w), NoTicket)]
  {
    assert WorkerOk(s, w);
    hide DequeOk, PlaceOk, WorkerOk, Rest;
  }

  lemma RestChooseNew(s: State, w: nat)
    requires Rest(s) && Enabled(s, Choose(w)) && Ready(s, Choose(w))
    requires s.workers[w].resumables == []
    ensures Rest(Apply(s, Choose(w)))
  {
    var a, d := s.workers[w].active, s.next;
    var t := Apply(s, Choose(w));
    ChooseNewEffect(s, w);
    hide Enabled, Ready, Apply;
    assert WorkerOk(s, w);
    assert DequeOk(s, a);
    ActiveKept(s, t, w, {a, d});
    hide Deques, Workers, Pools, Local;
    LocalStepAbout(s, t, w, d);
  }

  /** The deque that was chosen may still be left by a worker, which chose its own earlier. */
  lemma NewStampWaits(s: State, t: State, w: nat, ds: set<nat>, d: nat)
    requires Rest(s) && Local(s, t, w, ds) && t.workers[w].pc == Switching(d, s.clock, false) && t.clock == s.clock + 1
    requires d in s.deques && d in t.deques && t.deques[d].fiber == s.deques[d].fiber && s.workers[w].pc == Choosing
    ensures WaitsForEarlier(t, w)
  {
    assert DequeOk(s, d);
    if s.deques[d].fiber.Leaving? { assert WorkerOk(s, s.deques[d].fiber.w); }
  }

  lemma ChooseMugEffect(s: State, w: nat)
    requires Inv(s) && Enabled(s, Choose(w)) && Ready(s, Choose(w))
    requires s.workers[w].resumables != []
    ensures var t := Apply(s, Choose(w)); var a := s.workers[w].active; var d := Last(s.workers[w].resumables);
      && Local(s, t, w, {a, d}) && a in s.deques && d != a && t.workers[w].active == s.workers[w].active
      && t.workers[w].pc == Switching(d, s.clock, false) && t.clock == s.clock + 1 && t.next == s.next && s.workers[w].pc == Choosing
      && t.deques.Keys == s.deques.Keys && t.deques[a] == s.deques[a] && d in s.deques && s.deques[d].place == InPool(w, Resumables)
      && t.deques[d] == s.deques[d].(self := INVALID_DEQUE_INDEX, worker := None, place := Held(w), resumable := false)
  {
    hide Deques, Workers, Rest;
    ActiveNotPooled(s, w);
    RemovedEffect(s, w, Resumables, Last(s.workers[w].resumables), Held(w));
    InSlot(s, w, Resumables, |s.workers[w].resumables| - 1);
    hide Pools, Removed;
  }

  lemma RestChooseMug(s: State, w: nat)
    requires Inv(s) && Enabled(s, Choose(w)) && Ready(s, Choose(w))
    requires s.workers[w].resumables != []
    ensures Rest(Apply(s, Choose(w)))
  {
    var a, d := s.workers[w].active, Last(s.workers[w].resumables);
    var t := Apply(s, Choose(w));
    ChooseMugEffect(s, w);
    hide Enabled, Ready, Apply;
    assert WorkerOk(s, w);
    assert DequeOk(s, a) && DequeOk(s, d);
    NewStampWaits(s, t, w, {a, d}, d);
    hide Deques, Workers, Pools, DequeOk, WorkerOk, KeepsOthers, WaitsForEarlier;
    ActiveFacts(s, w, a);
    ActiveKept(s, t, w, {a, d});
    HeldForSwitch(s, t, w, d);
    hide ThreadOk, Local;
    LocalStepAbout(s, t, w, d);
  }

  /** A worker's own resumable deque, taken by that worker to switch to. */
  lemma HeldForSwitch(s: State, t: State, w: nat, d: nat)
    requires d in s.deques && d in t.deques && w < |s.workers| == |t.workers| && d != t.workers[w].active && s.next == t.next
    requires DequeOk(s, d) && s.deques[d].place == InPool(w, Resumables) && Local(s, t, w, {t.workers[w].active, d})
    requires t.deques[d] == s.deques[d].(self := INVALID_DEQUE_INDEX, worker := None, place := Held(w), resumable := false)
    requires var me := t.workers[w];
      && s.workers[w].pc == Choosing && me.pc == Switching(d, s.clock, false) && me.active in t.deques && t.deques[me.active].place == Active(w)
    requires WaitsForEarlier(t, w)
    ensures DequeOk(t, d) && WorkerOk(t, w) && KeepsOthers(s.deques[d], t.deques[d], w)
  {
    hide WaitsForEarlier;
  }

  lemma SwitchEffect(s: State, w: nat, empty: bool)
    requires Rest(s) && Enabled(s, Switch(w, empty)) && Ready(s, Switch(w, empty))
    ensures var t := Apply(s, Switch(w, empty)); var a := s.workers[w].active; var d := s.workers[w].pc.next;
      && Local(s, t, w, {a, d}) && a in s.deques && d != a && t.workers[w].active == d
      && t.workers[w].pc == Placing(a, s.workers[w].pc.stamp) && t.clock == s.clock && t.next == s.next
      && t.deques.Keys == s.deques.Keys && d in s.deques
      && t.deques[a] == s.deques[a].(fiber := Leaving(w), empty := empty, place := Transit(w))
      && t.deques[d] == s.deques[d].(self := ACTIVE_DEQUE_INDEX, worker := Some(w), place := Active(w))
  {
    assert WorkerOk(s, w);
    hide DequeOk, PlaceOk, WorkerOk, Rest;
  }

  lemma RestSwitch(s: State, w: nat, empty: bool)
    requires Rest(s) && Enabled(s, Switch(w, empty)) && Ready(s, Switch(w, empty))
    ensures Rest(Apply(s, Switch(w, empty)))
  {
    var a, d := s.workers[w].active, s.workers[w].pc.next;
    var t := Apply(s, Switch(w, empty));
    SwitchEffect(s, w, empty);
    assert s.workers[w].pc.Switching?;
    hide Enabled, Ready, Apply;
    assert WorkerOk(s, w);
    assert DequeOk(s, a) && DequeOk(s, d);
    hide Deques, Workers, Pools, DequeOk, WorkerOk, ThreadOk, WaitsForEarlier, Considerate;
    Switched(s, t, w, a, d, empty);
    hide Local;
    LocalStep(s, t, w, {a, d});
  }

  /** The old deque in transit, the new one active. */
  lemma Switched(s: State, t: State, w: nat, a: nat, d: nat, empty: bool)
    requires Local(s, t, w, {a, d}) && {a, d} <= s.deques.Keys * t.deques.Keys && d != a && s.clock == t.clock && s.next == t.next
    requires s.workers[w].active == a && t.workers[w].active == d && DequeOk(s, a) && DequeOk(s, d) && WorkerOk(s, w)
    requires s.workers[w].pc.Switching? && s.workers[w].pc.next == d && t.workers[w].pc == Placing(a, s.workers[w].pc.stamp)
    requires t.deques[a] == s.deques[a].(fiber := Leaving(w), empty := empty, place := Transit(w))
    requires t.deques[d] == s.deques[d].(self := ACTIVE_DEQUE_INDEX, worker := Some(w), place := Active(w))
    ensures DequeOk(t, a) && DequeOk(t, d) && WorkerOk(t, w) && Considerate(s, t, w, {a, d})
  {
  }

  lemma PlaceEffect(s: State, w: nat, victim: nat)
    requires Rest(s) && Enabled(s, PlaceOld(w, victim)) && Ready(s, PlaceOld(w, victim))
    ensures var t := Apply(s, PlaceOld(w, victim)); var a := s.workers[w].active; var d := s.workers[w].pc.d;
      && Local(s, t, w, {a, d}) && a in s.deques && d != a && t.workers[w].active == s.workers[w].active
      && t.workers[w].pc == SwitchingFiber(d, s.workers[w].pc.stamp) && t.clock == s.clock && t.next == s.next
      && t.deques.Keys == s.deques.Keys && t.deques[a] == s.deques[a] && d in s.deques
      && (var q := s.deques[d]; var r := t.deques[d];
          if q.resumable || !q.empty then
            r == q.(self := r.self, worker := Some(victim), place := InPool(victim, if q.resumable then Resumables else Stealable))
          else r == q.(self := INVALID_DEQUE_INDEX, worker := None, place := Limbo))
  {
    assert WorkerOk(s, w);
    hide DequeOk, PlaceOk, WorkerOk, Rest;
  }

  lemma RestPlace(s: State, w: nat, victim: nat)
    requires Rest(s) && Enabled(s, PlaceOld(w, victim)) && Ready(s, PlaceOld(w, victim))
    ensures Rest(Apply(s, PlaceOld(w, victim)))
  {
    var a, d := s.workers[w].active, s.workers[w].pc.d;
    var t := Apply(s, PlaceOld(w, victim));
    PlaceEffect(s, w, victim);
    assert s.workers[w].pc.Placing?;
    hide Enabled, Ready, Apply;
    assert WorkerOk(s, w);
    assert DequeOk(s, a) && DequeOk(s, d);
    hide Deques, Workers, Pools, Local, DequeOk, WorkerOk, ThreadOk, WaitsForEarlier, KeepsOthers, PlaceOk, TicketOk;
    OldPlaced(s, t, w, victim, a, d);
    LocalStepAbout(s, t, w, d);
  }

  /** The old deque where its flags say: a pool, or limbo. */
  lemma OldPlaced(s: State, t: State, w: nat, victim: nat, a: nat, d: nat)
    requires Local(s, t, w, {a, d}) && victim < |t.workers| && s.clock == t.clock && s.next == t.next && d != a
    requires {a, d} <= s.deques.Keys * t.deques.Keys && s.workers[w].active == a == t.workers[w].active
    requires DequeOk(s, d) && DequeOk(s, a) && WorkerOk(s, w)
    requires s.workers[w].pc.Placing? && s.workers[w].pc.d == d && t.workers[w].pc == SwitchingFiber(d, s.workers[w].pc.stamp)
    requires t.deques[a] == s.deques[a]
    requires var q := s.deques[d]; var r := t.deques[d];
      if q.resumable || !q.empty then
        r == q.(self := r.self, worker := Some(victim), place := InPool(victim, if q.resumable then Resumables else Stealable))
      else r == q.(self := INVALID_DEQUE_INDEX, worker := None, place := Limbo)
    ensures DequeOk(t, d) && WorkerOk(t, w) && KeepsOthers(s.deques[d], t.deques[d], w)
    ensures DequeOk(t, a) && KeepsOthers(s.deques[a], t.deques[a], w)
  {
  }

  lemma SwitchFiberEffect(s: State, w: nat)
    requires Rest(s) && Enabled(s, SwitchFiber(w)) && Ready(s, SwitchFiber(w))
    ensures var t := Apply(s, SwitchFiber(w)); var a := s.workers[w].active; var d := s.workers[w].pc.d;
      && Local(s, t, w, {a, d}) && a in s.deques && d != a && t.workers[w].active == s.workers[w].active
      && t.workers[w].pc == Running && t.clock == s.clock && t.next == s.next
      && t.deques.Keys == s.deques.Keys && d in s.deques && s.deques[a].fiber == Parked && s.deques[d].fiber == Leaving(w)
      && t.deques[a] == s.deques[a].(fiber := NoFiber) && t.deques[d] == s.deques[d].(fiber := Parked)
  {
    assert WorkerOk(s, w);
    hide DequeOk, PlaceOk, WorkerOk, Rest;
  }

  lemma RestSwitchFiber(s: State, w: nat)
    requires Rest(s) && Enabled(s, SwitchFiber(w)) && Ready(s, SwitchFiber(w))
    ensures Rest(Apply(s, SwitchFiber(w)))
  {
    var a, d := s.workers[w].active, s.workers[w].pc.d;
    var t := Apply(s, SwitchFiber(w));
    SwitchFiberEffect(s, w);
    assert s.workers[w].pc.SwitchingFiber?;
    hide Enabled, Ready, Apply;
    assert WorkerOk(s, w);
    assert DequeOk(s, a) && DequeOk(s, d);
    hide Deques, Workers, Pools, DequeOk, WorkerOk, ThreadOk, WaitsForEarlier, Considerate;
    FiberSwitched(s, t, w, a, d);
    hide Local;
    LocalStep(s, t, w, {a, d});
  }

  lemma FiberSwitched(s: State, t: State, w: nat, a: nat, d: nat)
    requires Local(s, t, w, {a, d}) && {a, d} <= s.deques.Keys * t.deques.Keys && d != a && s.clock == t.clock && s.next == t.next
    requires s.workers[w].active == a == t.workers[w].active && DequeOk(s, a) && DequeOk(s, d) && WorkerOk(s, w)
    requires s.workers[w].pc.SwitchingFiber? && s.workers[w].pc.d == d && t.workers[w].pc == Running
    requires s.deques[a].fiber == Parked && s.deques[d].fiber == Leaving(w)
    requires t.deques[a] == s.deques[a].(fiber := NoFiber) && t.deques[d] == s.deques[d].(fiber := Parked)
    ensures DequeOk(t, a) && DequeOk(t, d) && WorkerOk(t, w) && Considerate(s, t, w, {a, d})
  {
  }

  lemma JumpEffect(s: State, w: nat, v: nat)
    requires Inv(s) && Enabled(s, Jump(w, v)) && Ready(s, Jump(w, v))
    ensures var t := Apply(s, Jump(w, v)); var a := s.workers[w].active; var d := Last(s.workers[v].resumables);
      && Local(s, t, w, {a, d}) && a in s.deques && d != a && t.workers[w].active == s.workers[w].active
      && t.workers[w].pc == Jumping(d) && s.workers[w].pc == Running && t.clock == s.clock && t.next == s.next
      && t.deques.Keys == s.deques.Keys && t.deques[a] == s.deques[a] && d in s.deques && s.deques[d].place == InPool(v, Resumables)
      && t.deques[d] == s.deques[d].(self := INVALID_DEQUE_INDEX, worker := None, place := Held(w))
  {
    hide Deques, Workers, Rest;
    ActiveNotPooled(s, w);
    RemovedEffect(s, v, Resumables, Last(s.workers[v].resumables), Held(w));
    InSlot(s, v, Resumables, |s.workers[v].resumables| - 1);
    hide Pools, Removed;
  }

  lemma RestJump(s: State, w: nat, v: nat)
    requires Inv(s) && Enabled(s, Jump(w, v)) && Ready(s, Jump(w, v))
    ensures Rest(Apply(s, Jump(w, v)))
  {
    var a, d := s.workers[w].active, Last(s.workers[v].resumables);
    var t := Apply(s, Jump(w, v));
    JumpEffect(s, w, v);
    hide Enabled, Ready, Apply;
    assert WorkerOk(s, w);
    assert DequeOk(s, a) && DequeOk(s, d);
    hide Deques, Workers, Pools, DequeOk, WorkerOk, KeepsOthers, WaitsForEarlier;
    ActiveFacts(s, w, a);
    ActiveKept(s, t, w, {a, d});
    HeldByJumper(s, t, w, d, v);
    hide ThreadOk, Local;
    LocalStepAbout(s, t, w, d);
  }

  lemma ActiveFacts(s: State, w: nat, a: nat)
    requires w < |s.workers| && a == s.workers[w].active && a in s.deques && WorkerOk(s, w) && DequeOk(s, a)
    ensures ThreadOk(s, w) && s.deques[a].place == Active(w) && (!Suspending(s.workers[w].pc) ==> s.deques[a].fiber == NoFiber)
  {
  }

  /** A resumable deque that a worker with nothing to do has taken. */
  lemma HeldByJumper(s: State, t: State, w: nat, d: nat, v: nat)
    requires d in s.deques && d in t.deques && w < |s.workers| == |t.workers| && d != t.workers[w].active && s.next == t.next
    requires DequeOk(s, d) && s.deques[d].place == InPool(v, Resumables) && Local(s, t, w, {t.workers[w].active, d})
    requires t.deques[d] == s.deques[d].(self := INVALID_DEQUE_INDEX, worker := None, place := Held(w))
    requires var me := t.workers[w]; s.workers[w].pc == Running && me.pc == Jumping(d) && me.active in t.deques && t.deques[me.active].place == Active(w)
    ensures DequeOk(t, d) && WorkerOk(t, w) && KeepsOthers(s.deques[d], t.deques[d], w)
  {
  }

  lemma ActivatedEffect(s: State, w: nat, d: nat)
    requires Rest(s)
    requires w < |s.workers| && (s.workers[w].pc == Jumping(d) || s.workers[w].pc == Got(d, 2))
    requires CanActivate(s, w, d) && s.deques[d].fiber == Parked
    ensures var t := Activated(s, w, d); var a := s.workers[w].active;
      && Local(s, t, w, {a, d}) && a in s.deques && t.workers[w].active == d
      && t.workers[w].pc == Running && t.clock == s.clock && t.next == s.next
      && d in s.deques && d != a && t.deques.Keys == s.deques.Keys - {a}
      && t.deques[d] == s.deques[d].(self := ACTIVE_DEQUE_INDEX, worker := Some(w), resumable := false, fiber := NoFiber, place := Active(w))
  {
    assert WorkerOk(s, w);
    hide DequeOk, PlaceOk, WorkerOk, Rest;
  }

  lemma RestActivated(s: State, w: nat, d: nat)
    requires Rest(s)
    requires w < |s.workers| && (s.workers[w].pc == Jumping(d) || s.workers[w].pc == Got(d, 2))
    requires CanActivate(s, w, d) && s.deques[d].fiber == Parked
    ensures Rest(Activated(s, w, d))
  {
    var a := s.workers[w].active;
    var t := Activated(s, w, d);
    ActivatedEffect(s, w, d);
    hide Activated, CanActivate;
    assert WorkerOk(s, w);
    assert DequeOk(s, a) && DequeOk(s, d);
    hide Deques, Workers, Pools, Local;
    LocalStep(s, t, w, {a, d});
  }

  lemma MugEmptyEffect(s: State, w: nat, v: nat, i: nat)
    requires Inv(s) && Enabled(s, MugEmpty(w, v, i)) && Ready(s, MugEmpty(w, v, i))
    ensures var t := Apply(s, MugEmpty(w, v, i)); var a := s.workers[w].active; var d := s.workers[v].suspended[i];
      && Local(s, t, w, {a, d}) && a in s.deques && d != a && t.workers[w].active == s.workers[w].active
      && t.workers[w].pc == Running && s.workers[w].pc == Running && t.clock == s.clock && t.next == s.next
      && t.deques.Keys == s.deques.Keys && t.deques[a] == s.deques[a] && d in s.deques && s.deques[d].place == InPool(v, Stealable)
      && t.deques[d] == s.deques[d].(self := INVALID_DEQUE_INDEX, worker := None, place := Limbo)
  {
    hide Deques, Workers, Rest;
    ActiveNotPooled(s, w);
    RemovedEffect(s, v, Stealable, s.workers[v].suspended[i], Limbo);
    InSlot(s, v, Stealable, i);
    hide Pools, Removed;
  }

  lemma RestMugEmpty(s: State, w: nat, v: nat, i: nat)
    requires Inv(s) && Enabled(s, MugEmpty(w, v, i)) && Ready(s, MugEmpty(w, v, i))
    ensures Rest(Apply(s, MugEmpty(w, v, i)))
  {
    var a, d := s.workers[w].active, s.workers[v].suspended[i];
    var t := Apply(s, MugEmpty(w, v, i));
    MugEmptyEffect(s, w, v, i);
    assert s.deques[d].empty;
    hide Enabled, Ready, Apply;
    assert WorkerOk(s, w);
    assert DequeOk(s, a) && DequeOk(s, d);
    hide Deques, Workers, Pools, DequeOk, WorkerOk, KeepsOthers, WaitsForEarlier;
    ActiveFacts(s, w, a);
    ActiveKept(s, t, w, {a, d});
    InLimboNow(s, t, w, v, d);
    hide ThreadOk, Local;
    LocalStepAbout(s, t, w, d);
  }

  /** An empty suspended deque that a thief has taken out of its pool. */
  lemma InLimboNow(s: State, t: State, w: nat, v: nat, d: nat)
    requires d in s.deques && d in t.deques && w < |s.workers| == |t.workers| && d != t.workers[w].active && s.next == t.next
    requires DequeOk(s, d) && s.deques[d].place == InPool(v, Stealable) && s.deques[d].empty
    requires Local(s, t, w, {t.workers[w].active, d})
    requires t.deques[d] == s.deques[d].(self := INVALID_DEQUE_INDEX, worker := None, place := Limbo)
    requires var me := t.workers[w]; s.workers[w].pc == Running == me.pc && me.active in t.deques && t.deques[me.active].place == Active(w)
    ensures DequeOk(t, d) && WorkerOk(t, w) && KeepsOthers(s.deques[d], t.deques[d], w)
  {
  }

  lemma StealFromEffect(s: State, w: nat, v: nat, i: nat, last: bool)
    requires Inv(s) && Enabled(s, StealFrom(w, v, i, last)) && Ready(s, StealFrom(w, v, i, last))
    ensures var t := Apply(s, StealFrom(w, v, i, last)); var a := s.workers[w].active; var d := s.workers[v].suspended[i];
      && Local(s, t, w, {a, d}) && a in s.deques && d != a && t.workers[w].active == s.workers[w].active
      && t.workers[w].pc == Running && s.workers[w].pc == Running && t.clock == s.clock && t.next == s.next
      && t.deques.Keys == s.deques.Keys && t.deques[a] == s.deques[a] && d in s.deques && s.deques[d].place == InPool(v, Stealable)
      && t.deques[d] == s.deques[d].(empty := last)
  {
    assert WorkerOk(s, w);
    InSlot(s, v, Stealable, i);
    hide Pools;
    hide DequeOk, PlaceOk, WorkerOk, Rest;
  }

  lemma RestStealFrom(s: State, w: nat, v: nat, i: nat, last: bool)
    requires Inv(s) && Enabled(s, StealFrom(w, v, i, last)) && Ready(s, StealFrom(w, v, i, last))
    ensures Rest(Apply(s, StealFrom(w, v, i, last)))
  {
    var a, d := s.workers[w].active, s.workers[v].suspended[i];
    var t := Apply(s, StealFrom(w, v, i, last));
    StealFromEffect(s, w, v, i, last);
    hide Enabled, Ready, Apply;
    assert WorkerOk(s, w);
    assert DequeOk(s, a) && DequeOk(s, d);
    ActiveKept(s, t, w, {a, d});
    hide Deques, Workers, Pools, Local;
    LocalStepAbout(s, t, w, d);
  }

  lemma AwaitEffect(s: State, w: nat, d: nat, goal: Goal)
    requires Rest(s) && Enabled(s, Await(w, d, goal)) && Ready(s, Await(w, d, goal))
    ensures var t := Apply(s, Await(w, d, goal)); var a := s.workers[w].active;
      && Local(s, t, w, {a, d}) && a in s.deques && t.workers[w].active == s.workers[w].active
      && t.workers[w].pc == Awaiting(d, goal) && (goal.ToResume? ==> goal.mode <= 2) && t.clock == s.clock && t.next == s.next
      && s.workers[w].pc == Running && d in s.deques && d != a && s.deques[d].ticket == Wanted
      && t.deques == s.deques[d := s.deques[d].(ticket := Claimed(w))]
  {
    assert WorkerOk(s, w);
    assert DequeOk(s, s.workers[w].active);
    hide DequeOk, PlaceOk, WorkerOk, Rest;
  }

  lemma RestAwait(s: State, w: nat, d: nat, goal: Goal)
    requires Rest(s) && Enabled(s, Await(w, d, goal)) && Ready(s, Await(w, d, goal))
    ensures Rest(Apply(s, Await(w, d, goal)))
  {
    var a := s.workers[w].active;
    var t := Apply(s, Await(w, d, goal));
    AwaitEffect(s, w, d, goal);
    hide Enabled, Ready, Apply;
    assert WorkerOk(s, w);
    assert DequeOk(s, a) && DequeOk(s, d);
    ActiveKept(s, t, w, {a, d});
    hide Deques, Workers, Pools, Local;
    LocalStepAbout(s, t, w, d);
  }

  /** A deque that waits to be resumed, and whose fiber has been left, is in a suspended pool or in limbo. */
  lemma ClaimedIsSuspended(s: State, w: nat, d: nat)
    requires Inv(s) && d in s.deques && s.deques[d].ticket == Claimed(w) && s.deques[d].fiber == Parked
    ensures var q := s.deques[d];
      && !q.resumable && d < s.next
      && ((q.place == Limbo && Free(q)) || (q.worker.Some? && q.worker.value < |s.workers| && q.place == InPool(q.worker.value, Stealable)))
  {
    assert DequeOk(s, d);
    if s.deques[d].place.InPool? { PlacedInPool(s, d); }
  }

  lemma SeeParkedEffect(s: State, w: nat)
    requires Rest(s) && Enabled(s, SeeParked(w)) && Ready(s, SeeParked(w))
    ensures var t := Apply(s, SeeParked(w)); var a := s.workers[w].active; var d := s.workers[w].pc.d;
      && Local(s, t, w, {a, d}) && a in s.deques && t.workers[w].active == s.workers[w].active
      && s.workers[w].pc.Awaiting? && t.workers[w].pc == AfterWait(d, s.workers[w].pc.goal, s.deques[d].worker)
      && (s.workers[w].pc.goal.ToResume? ==> s.workers[w].pc.goal.mode <= 2)
      && t.clock == s.clock && t.next == s.next && t.deques == s.deques
      && d in s.deques && d != a && s.deques[d].ticket == Claimed(w) && s.deques[d].fiber == Parked
  {
    assert WorkerOk(s, w);
    assert DequeOk(s, s.workers[w].active);
    hide DequeOk, PlaceOk, WorkerOk, Rest;
  }

  lemma RestSeeParked(s: State, w: nat)
    requires Inv(s) && Enabled(s, SeeParked(w)) && Ready(s, SeeParked(w))
    ensures Rest(Apply(s, SeeParked(w)))
  {
    var a, d := s.workers[w].active, s.workers[w].pc.d;
    var t := Apply(s, SeeParked(w));
    SeeParkedEffect(s, w);
    ClaimedIsSuspended(s, w, d);
    hide Enabled, Ready, Apply, Pools;
    assert WorkerOk(s, w);
    assert DequeOk(s, a) && DequeOk(s, d);
    ActiveKept(s, t, w, {a, d});
    hide Deques, Workers, Pools, Local;
    LocalStepAbout(s, t, w, d);
  }

  lemma RevivedEffect(s: State, w: nat, d: nat, v: nat)
    requires Pools(s) && Indexed(s, v, Stealable, d) && w < |s.workers| && s.deques[d].worker != None
    ensures var t := ApplyRevive(s, w, d, v);
      && t.deques.Keys == s.deques.Keys && |t.workers| == |s.workers| && t.clock == s.clock && t.next == s.next
      && t.deques[d] == s.deques[d].(self := t.deques[d].self, resumable := true, worker := Some(v),
                                     place := InPool(v, Resumables), ticket := NoTicket)
      && (forall e :: e in s.deques && e != d ==> Alike(s.deques[e], t.deques[e]))
      && (forall u :: 0 <= u < |s.workers| ==> t.workers[u].active == s.workers[u].active)
      && (forall u :: 0 <= u < |s.workers| && u != w ==> t.workers[u].pc == s.workers[u].pc) && t.workers[w].pc == Running
  {
    RemovedEffect(s, v, Stealable, d, Limbo);
    hide Pools, Removed;
  }

  lemma ReviveEffect(s: State, w: nat)
    requires Inv(s) && Enabled(s, Revive(w)) && Ready(s, Revive(w))
    ensures var t := Apply(s, Revive(w)); var a := s.workers[w].active; var d := s.workers[w].pc.d;
      && Local(s, t, w, {a, d}) && a in s.deques && d != a && t.workers[w].active == s.workers[w].active
      && t.clock == s.clock && t.next == s.next && t.deques.Keys == s.deques.Keys && t.deques[a] == s.deques[a] && d in s.deques
      && (if s.deques[d].worker == None then t.workers[w].pc == RevivingFree(d) && t.deques[d] == s.deques[d]
          else t.workers[w].pc == Running && t.deques[d] == s.deques[d].(self := t.deques[d].self, resumable := true,
            worker := Some(s.workers[w].pc.victim), place := InPool(s.workers[w].pc.victim, Resumables), ticket := NoTicket))
  {
    assert WorkerOk(s, w);
    if s.deques[s.workers[w].pc.d].worker != None { RevivedEffect(s, w, s.workers[w].pc.d, s.workers[w].pc.victim); }
    hide Pools, Removed, Added;
    hide DequeOk, PlaceOk, WorkerOk, Rest;
  }

  lemma ReviveFacts(s: State, w: nat)
    requires Inv(s) && w < |s.workers| && s.workers[w].pc.Reviving?
    ensures var a, d := s.workers[w].active, s.workers[w].pc.d;
      && a in s.deques && d in s.deques && WorkerOk(s, w) && DequeOk(s, a) && DequeOk(s, d)
      && (s.deques[d].worker == None ==> !s.deques[d].place.InPool?)
  {
    assert WorkerOk(s, w);
    var d := s.workers[w].pc.d;
    if s.deques[d].place.InPool? { PlacedInPool(s, d); }
  }

  lemma RestRevive(s: State, w: nat)
    requires Inv(s) && Enabled(s, Revive(w)) && Ready(s, Revive(w))
    ensures Rest(Apply(s, Revive(w)))
  {
    hide Enabled, Ready, Apply, Deques, Workers, Pools, DequeOk, WorkerOk, KeepsOthers, WaitsForEarlier;
    PcOf(s, Revive(w));
    var a, d := s.workers[w].active, s.workers[w].pc.d;
    var t := Apply(s, Revive(w));
    ReviveEffect(s, w);
    ReviveFacts(s, w);
    ActiveFacts(s, w, a);
    ActiveKept(s, t, w, {a, d});
    RevivedOrFree(s, t, w, d);
    hide ThreadOk, Local;
    LocalStepAbout(s, t, w, d);
  }

  /** What looking again under the lock comes to: in the resumable pool, or found free. */
  lemma RevivedOrFree(s: State, t: State, w: nat, d: nat)
    requires d in s.deques && d in t.deques && w < |s.workers| == |t.workers| && d != t.workers[w].active && s.next == t.next
    requires DequeOk(s, d) && WorkerOk(s, w) && Local(s, t, w, {t.workers[w].active, d}) && s.workers[w].pc.Reviving? && s.workers[w].pc.d == d
    requires var me := t.workers[w]; me.active in t.deques && t.deques[me.active].place == Active(w)
    requires s.deques[d].worker == None ==> !s.deques[d].place.InPool?
    requires if s.deques[d].worker == None then t.workers[w].pc == RevivingFree(d) && t.deques[d] == s.deques[d]
      else t.workers[w].pc == Running && t.deques[d] == s.deques[d].(self := t.deques[d].self, resumable := true,
        worker := Some(s.workers[w].pc.victim), place := InPool(s.workers[w].pc.victim, Resumables), ticket := NoTicket)
    ensures DequeOk(t, d) && WorkerOk(t, w) && KeepsOthers(s.deques[d], t.deques[d], w)
  {
  }

  lemma AdoptFreeEffect(s: State, w: nat, victim: nat)
    requires Rest(s) && Enabled(s, AdoptFree(w, victim)) && Ready(s, AdoptFree(w, victim))
    ensures var t := Apply(s, AdoptFree(w, victim)); var a := s.workers[w].active; var d := s.workers[w].pc.d;
      && Local(s, t, w, {a, d}) && a in s.deques && d != a && t.workers[w].active == s.workers[w].active
      && t.workers[w].pc == PostingTo(d, victim) && victim < |s.workers| && t.clock == s.clock && t.next == s.next && d in s.deques
      && t.deques == s.deques[d := s.deques[d].(resumable := true, worker := Some(victim), place := Posting(w), ticket := NoTicket)]
  {
    assert WorkerOk(s, w);
    hide DequeOk, PlaceOk, WorkerOk, Rest;
  }

  lemma RestAdoptFree(s: State, w: nat, victim: nat)
    requires Rest(s) && Enabled(s, AdoptFree(w, victim)) && Ready(s, AdoptFree(w, victim))
    ensures Rest(Apply(s, AdoptFree(w, victim)))
  {
    var a, d := s.workers[w].active, s.workers[w].pc.d;
    var t := Apply(s, AdoptFree(w, victim));
    AdoptFreeEffect(s, w, victim);
    assert s.workers[w].pc.RevivingFree?;
    hide Enabled, Ready, Apply;
    assert WorkerOk(s, w);
    assert DequeOk(s, a) && DequeOk(s, d);
    ActiveKept(s, t, w, {a, d});
    hide Deques, Workers, Pools, Local;
    LocalStepAbout(s, t, w, d);
  }

  lemma PostEffect(s: State, w: nat)
    requires Rest(s) && Enabled(s, Post(w)) && Ready(s, Post(w))
    ensures var t := Apply(s, Post(w)); var a := s.workers[w].active; var d := s.workers[w].pc.d;
      && Local(s, t, w, {a, d}) && a in s.deques && d != a && t.workers[w].active == s.workers[w].active
      && t.workers[w].pc == Running && t.clock == s.clock && t.next == s.next && d in s.deques
      && t.deques == s.deques[d := s.deques[d].(self := t.deques[d].self, worker := Some(s.workers[w].pc.victim), place := InPool(s.workers[w].pc.victim, Resumables))]
  {
    assert WorkerOk(s, w);
    hide DequeOk, PlaceOk, WorkerOk, Rest;
  }

  lemma RestPost(s: State, w: nat)
    requires Rest(s) && Enabled(s, Post(w)) && Ready(s, Post(w))
    ensures Rest(Apply(s, Post(w)))
  {
    var a, d := s.workers[w].active, s.workers[w].pc.d;
    var t := Apply(s, Post(w));
    PostEffect(s, w);
    assert s.workers[w].pc.PostingTo?;
    hide Enabled, Ready, Apply;
    assert WorkerOk(s, w);
    assert DequeOk(s, a) && DequeOk(s, d);
    ActiveKept(s, t, w, {a, d});
    hide Deques, Workers, Pools, Local;
    LocalStepAbout(s, t, w, d);
  }

  /** What the resumer finds when it looks again under the lock. */
  lemma MugToResumeFacts(s: State, w: nat)
    requires Inv(s) && Enabled(s, MugToResume(w)) && Ready(s, MugToResume(w))
    ensures var a, d, seen := s.workers[w].active, s.workers[w].pc.d, s.workers[w].pc.seen;
      && a in s.deques && d in s.deques && d != a && !s.deques[d].resumable && d < s.next
      && s.deques[d].fiber == Parked && s.deques[d].ticket == Claimed(w) && PlaceWorker(s.deques[d].place) == None
      && s.workers[w].pc.mode <= 2 && ThreadOk(s, w) && DequeOk(s, a)
      && if seen.Some? && s.deques[d].worker != None then Muggable(s, seen.value, d)
         else Free(s.deques[d]) && s.deques[d].place == Limbo
  {
    assert WorkerOk(s, w) && DequeOk(s, s.workers[w].pc.d) && DequeOk(s, s.workers[w].active);
    if s.deques[s.workers[w].pc.d].place.InPool? { PlacedInPool(s, s.workers[w].pc.d); }
  }

  lemma MuggedToResumeEffect(s: State, w: nat, d: nat, v: nat, mode: nat)
    requires Pools(s) && Muggable(s, v, d) && !s.deques[d].resumable && w < |s.workers|
    ensures var t := ApplyMugToResume(s, w, d, Some(v), mode);
      && t.deques.Keys == s.deques.Keys && |t.workers| == |s.workers| && t.clock == s.clock && t.next == s.next
      && t.deques[d] == s.deques[d].(self := INVALID_DEQUE_INDEX, worker := None, place := Held(w), ticket := NoTicket)
      && (forall e :: e in s.deques && e != d ==> Alike(s.deques[e], t.deques[e]))
      && (forall u :: 0 <= u < |s.workers| ==> t.workers[u].active == s.workers[u].active)
      && (forall u :: 0 <= u < |s.workers| && u != w ==> t.workers[u].pc == s.workers[u].pc) && t.workers[w].pc == Got(d, mode)
  {
    RemovedEffect(s, v, Stealable, d, Held(w));
    hide Pools, Removed;
  }

  lemma ActiveNotPooled(s: State, w: nat)
    requires Inv(s) && w < |s.workers|
    ensures s.workers[w].active in s.deques && !s.deques[s.workers[w].active].place.InPool?
  {
    assert WorkerOk(s, w);
  }

  lemma MugToResumeEffect(s: State, w: nat)
    requires Inv(s) && Enabled(s, MugToResume(w)) && Ready(s, MugToResume(w))
    ensures var t := Apply(s, MugToResume(w)); var a := s.workers[w].active; var d := s.workers[w].pc.d;
      && Local(s, t, w, {a, d}) && a in s.deques && d != a && t.workers[w].active == s.workers[w].active
      && t.workers[w].pc == Got(d, s.workers[w].pc.mode) && t.clock == s.clock && t.next == s.next && t.deques.Keys == s.deques.Keys && t.deques[a] == s.deques[a] && d in s.deques
      && t.deques[d] == s.deques[d].(self := INVALID_DEQUE_INDEX, worker := None, place := Held(w), ticket := NoTicket)
  {
    MugToResumeFacts(s, w);
    ActiveNotPooled(s, w);
    hide Deques, Workers, Enabled, Ready, DequeOk, ThreadOk;
    var d, seen := s.workers[w].pc.d, s.workers[w].pc.seen;
    hide Mugged, Muggable, Indexed, DequeOk, ThreadOk;
    if seen.Some? && s.deques[d].worker != None { MuggedToResumeEffect(s, w, d, seen.value, s.workers[w].pc.mode); }
    hide Pools;
  }

  /** A deque that its resumer has in hand. */
  lemma HeldByResumer(s: State, t: State, w: nat, d: nat, mode: nat)
    requires d in s.deques && d in t.deques && w < |s.workers| == |t.workers| && d < t.next && mode <= 2
    requires var q := s.deques[d];
      && !q.resumable && q.fiber == Parked && q.ticket == Claimed(w) && PlaceWorker(q.place) == None
      && t.deques[d] == q.(self := INVALID_DEQUE_INDEX, worker := None, place := Held(w), ticket := NoTicket)
    requires var me := t.workers[w]; me.pc == Got(d, mode) && me.active in t.deques && t.deques[me.active].place == Active(w)
    ensures DequeOk(t, d) && WorkerOk(t, w) && KeepsOthers(s.deques[d], t.deques[d], w)
  {
  }

  lemma RestMugToResume(s: State, w: nat)
    requires Inv(s) && Enabled(s, MugToResume(w)) && Ready(s, MugToResume(w))
    ensures Rest(Apply(s, MugToResume(w)))
  {
    hide Enabled, Ready, Apply, Muggable, Pools, DequeOk, WorkerOk, KeepsOthers, WaitsForEarlier, Deques, Workers;
    PcOf(s, MugToResume(w));
    var a, d := s.workers[w].active, s.workers[w].pc.d;
    var t := Apply(s, MugToResume(w));
    MugToResumeEffect(s, w);
    MugToResumeFacts(s, w);
    ActiveParked(s, w);
    ActiveKept(s, t, w, {a, d});
    HeldByResumer(s, t, w, d, s.workers[w].pc.mode);
    hide ThreadOk;
    LocalStepAbout(s, t, w, d);
  }

  /** A worker that resumes is not leaving its active deque's fiber. */
  lemma ActiveParked(s: State, w: nat)
    requires w < |s.workers| && ThreadOk(s, w) && DequeOk(s, s.workers[w].active) && !Suspending(s.workers[w].pc)
    ensures s.deques[s.workers[w].active].fiber == NoFiber
  {
  }

  lemma GoSuspendingEffect(s: State, w: nat)
    requires Rest(s) && Enabled(s, GoSuspending(w)) && Ready(s, GoSuspending(w))
    ensures var t := Apply(s, GoSuspending(w)); var a := s.workers[w].active; var d := s.workers[w].pc.d;
      && Local(s, t, w, {a, d}) && a in s.deques && d != a && t.workers[w].active == s.workers[w].active
      && t.workers[w].pc == Switching(d, s.clock, s.workers[w].pc.mode == 1) && t.clock == s.clock + 1 && t.next == s.next && d in s.deques
      && t.deques == s.deques[a := s.deques[a].(resumable := s.workers[w].pc.mode == 1,
                                                ticket := if s.workers[w].pc.mode == 1 then NoTicket else Wanted)]
  {
    assert WorkerOk(s, w);
    hide DequeOk, PlaceOk, WorkerOk, Rest;
  }

  lemma RestGoSuspending(s: State, w: nat)
    requires Rest(s) && Enabled(s, GoSuspending(w)) && Ready(s, GoSuspending(w))
    ensures Rest(Apply(s, GoSuspending(w)))
  {
    var a, d := s.workers[w].active, s.workers[w].pc.d;
    var t := Apply(s, GoSuspending(w));
    GoSuspendingEffect(s, w);
    assert s.workers[w].pc.Got?;
    hide Enabled, Ready, Apply;
    assert WorkerOk(s, w);
    assert DequeOk(s, a) && DequeOk(s, d);
    hide Deques, Workers, Pools, Local;
    LocalStep(s, t, w, {a, d});
  }

  // ---------------------------------------------------------------- whole runs

  lemma PoolsAfterChoose(s: State, w: nat)
    requires Inv(s) && Enabled(s, Choose(w)) && Ready(s, Choose(w))
    ensures Pools(Apply(s, Choose(w)))
  {
    var me := s.workers[w];
    if me.resumables != [] {
      InSlot(s, w, Resumables, |me.resumables| - 1);
      PoolsRemoved(s, w, Resumables, Last(me.resumables), Held(w));
      var t := Mugged(s, w, Last(me.resumables), Held(w));
      hide Pools, Removed, Muggable;
      PoolsSame(t, Apply(s, Choose(w)));
    } else {
      hide Pools;
      assert s.next !in s.deques by { assert Deques(s); }
      PoolsSame(s, Apply(s, Choose(w)));
    }
  }

  lemma PoolsAfterRevive(s: State, w: nat)
    requires Inv(s) && Enabled(s, Revive(w)) && Ready(s, Revive(w))
    ensures Pools(Apply(s, Revive(w)))
  {
    var d, v := s.workers[w].pc.d, s.workers[w].pc.victim;
    var t := Apply(s, Revive(w));
    if s.deques[d].worker == None {
      hide Pools;
      PoolsSame(s, t);
    } else {
      PoolsRemoved(s, v, Stealable, d, Limbo);
      var r := Removed(s, v, Stealable, d, Limbo);
      hide Pools, Removed, Indexed;
      var q := With(r, d, r.deques[d].(resumable := true, ticket := NoTicket));
      PoolsSame(r, q);
      PoolsAdded(q, v, Resumables, d);
      PoolsSame(Added(q, v, Resumables, d), t);
    }
  }

  lemma PoolsAfterMugToResume(s: State, w: nat)
    requires Inv(s) && Enabled(s, MugToResume(w)) && Ready(s, MugToResume(w))
    ensures Pools(Apply(s, MugToResume(w)))
  {
    MugToResumeFacts(s, w);
    var d, seen := s.workers[w].pc.d, s.workers[w].pc.seen;
    var t := Apply(s, MugToResume(w));
    hide Deques, Workers, Ready;
    if seen.Some? && s.deques[d].worker != None {
      PoolsRemoved(s, seen.value, Stealable, d, Held(w));
      var r := Removed(s, seen.value, Stealable, d, Held(w));
      hide Pools, Removed, Indexed;
      PoolsSame(r, t);
    } else {
      hide Pools;
      PoolsSame(s, t);
    }
  }

  lemma PoolsAfterPlace(s: State, w: nat, victim: nat)
    requires Inv(s) && Enabled(s, PlaceOld(w, victim)) && Ready(s, PlaceOld(w, victim))
    ensures Pools(Apply(s, PlaceOld(w, victim)))
  {
    var d := s.workers[w].pc.d;
    var t := Apply(s, PlaceOld(w, victim));
    assert WorkerOk(s, w) && s.deques[d].place == Transit(w);
    var q := s.deques[d];
    hide Pools;
    if q.resumable || !q.empty {
      var k := if q.resumable then Resumables else Stealable;
      PoolsAdded(s, victim, k, d);
      PoolsSame(Added(s, victim, k, d), t);
    } else {
      PoolsSame(s, t);
    }
  }

  /** Steps that move no deque into or out of a pool. */
  lemma PoolsUntouched(s: State, a: Action)
    requires Inv(s) && Enabled(s, a) && Ready(s, a)
    requires a.Suspend? || a.SwitchFiber? || a.StealFrom? || a.Await? || a.SeeParked? || a.AdoptFree? || a.GoSuspending?
    ensures Pools(Apply(s, a))
  {
    assert WorkerOk(s, a.w) && DequeOk(s, s.workers[a.w].active);
    hide Pools, DequeOk, WaitsForEarlier, Deques, Workers, Apply, Enabled, Ready;
    if a.AdoptFree? || a.Await? || a.SeeParked? {
      PoolsUntouchedByResumer(s, a);
    } else {
      PoolsUntouchedBySuspender(s, a);
    }
  }

  lemma PoolsUntouchedByResumer(s: State, a: Action)
    requires Pools(s) && Enabled(s, a) && Ready(s, a) && ThreadOk(s, a.w)
    requires a.AdoptFree? || a.Await? || a.SeeParked?
    ensures Pools(Apply(s, a))
  {
    hide Pools;
    PoolsSame(s, Apply(s, a));
  }

  lemma PoolsUntouchedBySuspender(s: State, a: Action)
    requires Pools(s) && Enabled(s, a) && Ready(s, a) && ThreadOk(s, a.w)
    requires a.Suspend? || a.SwitchFiber? || a.StealFrom? || a.GoSuspending?
    ensures Pools(Apply(s, a))
  {
    hide Pools;
    PoolsSame(s, Apply(s, a));
  }

  /** Steps that make a deque active that nobody else can see. */
  lemma PoolsActivated(s: State, a: Action)
    requires Inv(s) && Enabled(s, a) && Ready(s, a) && (a.Switch? || a.Land? || a.GoDirect?)
    ensures Pools(Apply(s, a))
  {
    assert WorkerOk(s, a.w) && DequeOk(s, s.workers[a.w].active);
    hide Pools, DequeOk, WaitsForEarlier, Deques, Workers;
    PoolsSame(s, Apply(s, a));
  }

  lemma PoolsStep(s: State, a: Action)
    requires Inv(s) && Enabled(s, a) && Ready(s, a)
    ensures Pools(Apply(s, a))
  {
    match a
    case Choose(w) => PoolsAfterChoose(s, w);
    case PlaceOld(w, victim) => PoolsAfterPlace(s, w, victim);
    case Jump(w, v) =>
      var d := Last(s.workers[v].resumables);
      PoolsRemoved(s, v, Resumables, d, Held(w));
      hide Pools, Removed;
      PoolsSame(Mugged(s, v, d, Held(w)), Apply(s, a));
    case MugEmpty(_, v, i) => PoolsRemoved(s, v, Stealable, s.workers[v].suspended[i], Limbo);
    case Revive(w) => PoolsAfterRevive(s, w);
    case Post(w) =>
      assert WorkerOk(s, w);
      PoolsAdded(s, s.workers[w].pc.victim, Resumables, s.workers[w].pc.d);
      hide Pools;
      PoolsSame(Added(s, s.workers[w].pc.victim, Resumables, s.workers[w].pc.d), Apply(s, a));
    case MugToResume(w) => PoolsAfterMugToResume(s, w);
    case Switch(_, _) => PoolsActivated(s, a);
    case Land(_) => PoolsActivated(s, a);
    case GoDirect(_) => PoolsActivated(s, a);
    case _ => PoolsUntouched(s, a);
  }

  lemma RestStep(s: State, a: Action)
    requires Inv(s) && Enabled(s, a) && Ready(s, a)
    ensures Rest(Apply(s, a))
  {
    hide Pools, Deques, Workers, Ready, Muggable, Indexed;
    match a
    case Suspend(w) => RestSuspend(s, w);
    case Choose(w) => if s.workers[w].resumables == [] { RestChooseNew(s, w); } else { RestChooseMug(s, w); }
    case Switch(w, empty) => RestSwitch(s, w, empty);
    case PlaceOld(w, victim) => RestPlace(s, w, victim);
    case SwitchFiber(w) => RestSwitchFiber(s, w);
    case Jump(w, v) => RestJump(s, w, v);
    case Land(w) => LandReady(s, w); RestActivated(s, w, s.workers[w].pc.d);
    case MugEmpty(w, v, i) => RestMugEmpty(s, w, v, i);
    case StealFrom(w, v, i, last) => RestStealFrom(s, w, v, i, last);
    case Await(w, d, goal) => RestAwait(s, w, d, goal);
    case SeeParked(w) => RestSeeParked(s, w);
    case Revive(w) => RestRevive(s, w);
    case AdoptFree(w, victim) => RestAdoptFree(s, w, victim);
    case Post(w) => RestPost(s, w);
    case MugToResume(w) => RestMugToResume(s, w);
    case GoDirect(w) => GoDirectReady(s, w); RestActivated(s, w, s.workers[w].pc.d);
    case GoSuspending(w) => RestGoSuspending(s, w);
  }

  lemma LandReady(s: State, w: nat)
    requires Enabled(s, Land(w)) && Ready(s, Land(w))
    ensures s.workers[w].pc == Jumping(s.workers[w].pc.d) && CanActivate(s, w, s.workers[w].pc.d)
    ensures s.deques[s.workers[w].pc.d].fiber == Parked
  {
  }

  lemma GoDirectReady(s: State, w: nat)
    requires Inv(s) && Enabled(s, GoDirect(w)) && Ready(s, GoDirect(w))
    ensures s.workers[w].pc == Got(s.workers[w].pc.d, 2) && CanActivate(s, w, s.workers[w].pc.d)
    ensures s.deques[s.workers[w].pc.d].fiber == Parked
  {
    assert WorkerOk(s, w) && DequeOk(s, s.workers[w].pc.d);
  }

  /** Every step keeps the invariant, and no assertion fires. */
  lemma InvStep(s: State, a: Action)
    requires Inv(s) && Enabled(s, a)
    ensures Ready(s, a) && Inv(Apply(s, a))
  {
    hide Pools, Deques, Workers, Enabled, Ready, Apply;
    AlwaysReady(s, a);
    PoolsStep(s, a);
    RestStep(s, a);
  }

  /** One active, empty deque per worker. */
  function Init(nworkers: nat): State {
    State(seq(nworkers, w requires 0 <= w < nworkers => Worker(w, [], [], Running)),
          map w: nat | 0 <= w < nworkers :: Susp(ACTIVE_DEQUE_INDEX, Some(w), false, NoFiber, true, Active(w), NoTicket),
          0, nworkers)
  }

  lemma InitInv(nworkers: nat)
    ensures Inv(Init(nworkers))
  {
  }

  ghost predicate Valid(s: State, acts: seq<Action>)
    decreases |acts|
  {
    acts == [] || (Enabled(s, acts[0]) && Ready(s, acts[0]) && Valid(Apply(s, acts[0]), acts[1..]))
  }

  ghost function Run(s: State, acts: seq<Action>): State
    requires Valid(s, acts)
    decreases |acts|
  {
    if acts == [] then s else Run(Apply(s, acts[0]), acts[1..])
  }

  lemma {:induction false} RunKeepsInv(s: State, acts: seq<Action>)
    requires Inv(s) && Valid(s, acts)
    ensures Inv(Run(s, acts))
    decreases |acts|
  {
    hide Inv, Enabled, Ready, Apply;
    if acts != [] {
      InvStep(s, acts[0]);
      RunKeepsInv(Apply(s, acts[0]), acts[1..]);
    }
  }

  ghost predicate Reachable(s: State) {
    exists nworkers: nat, acts :: Valid(Init(nworkers), acts) && Run(Init(nworkers), acts) == s
  }

  lemma ReachableInv(s: State)
    requires Reachable(s)
    ensures Inv(s)
  {
    hide Inv, Valid, Run;
    var nworkers: nat, acts :| Valid(Init(nworkers), acts) && Run(Init(nworkers), acts) == s;
    InitInv(nworkers);
    RunKeepsInv(Init(nworkers), acts);
  }

  // ---------------------------------------------------------------- what it amounts to

  /** No assertion of the routines fires, in any run of any number of workers. */
  lemma AssertionsNeverFire(s: State, a: Action)
    requires Reachable(s) && Enabled(s, a)
    ensures Ready(s, a) && Reachable(Apply(s, a))
  {
    hide Inv, Enabled, Ready, Apply;
    ReachableInv(s);
    AlwaysReady(s, a);
    var nworkers: nat, acts :| Valid(Init(nworkers), acts) && Run(Init(nworkers), acts) == s;
    RunAppend(Init(nworkers), acts, a);
  }

  lemma {:induction false} RunAppend(s: State, acts: seq<Action>, a: Action)
    requires Valid(s, acts) && Enabled(Run(s, acts), a) && Ready(Run(s, acts), a)
    ensures Valid(s, acts + [a]) && Run(s, acts + [a]) == Apply(Run(s, acts), a)
    decreases |acts|
  {
    hide Enabled, Ready, Apply;
    if acts == [] {
      assert [a][1..] == [];
      assert acts + [a] == [a];
    } else {
      assert (acts + [a])[1..] == acts[1..] + [a];
      RunAppend(Apply(s, acts[0]), acts[1..], a);
    }
  }

  /** Where the runtime's own structures hold a pointer to a deque. */
  datatype Spot = OnWorker(w: nat) | InSlotOf(w: nat, kind: Kind, i: nat) | InHand(w: nat)

  predicate At(s: State, d: nat, x: Spot) {
    && x.w < |s.workers|
    && match x
       case OnWorker(w) => s.workers[w].active == d
       case InSlotOf(w, k, i) => i < |PoolOf(s, w, k)| && PoolOf(s, w, k)[i] == d
       case InHand(w) =>
         (match s.workers[w].pc
          case Switching(e, _, _) => e == d
          case Placing(e, _) => e == d
          case Jumping(e) => e == d
          case PostingTo(e, _) => e == d
          case Got(e, _) => e == d
          case _ => false)
  }

  lemma AtPlace(s: State, d: nat, x: Spot)
    requires Inv(s) && At(s, d, x)
    ensures d in s.deques
    ensures match s.deques[d].place
            case Active(w) => x == OnWorker(w)
            case InPool(w, k) => 0 <= s.deques[d].self && x == InSlotOf(w, k, s.deques[d].self)
            case Limbo => false
            case Transit(w) => x == InHand(w)
            case Held(w) => x == InHand(w)
            case Posting(w) => x == InHand(w)
  {
    assert WorkerOk(s, x.w);
    if x.InSlotOf? {
      assert PoolOf(s, x.w, x.kind)[x.i] in s.deques;
    }
  }

  /** A live deque is held in at most one place: one worker's active deque, one slot of one pool,
      or the hands of one worker that is moving it; and nothing points to a freed deque. */
  lemma OnePlace(s: State, d: nat, x: Spot, y: Spot)
    requires Reachable(s) && At(s, d, x) && At(s, d, y)
    ensures x == y && d in s.deques
  {
    hide Inv, At;
    ReachableInv(s);
    AtPlace(s, d, x);
    AtPlace(s, d, y);
  }

  /** It is in no such place exactly when it is free (no index, no worker) and someone is still to
      resume it, and then it has nothing to steal: no suspended deque is ever lost. */
  lemma InLimboOrHeld(s: State, d: nat)
    requires Reachable(s) && d in s.deques
    ensures (exists x :: At(s, d, x)) <==> !(s.deques[d].self == INVALID_DEQUE_INDEX && s.deques[d].worker == None && s.deques[d].ticket != NoTicket)
    ensures (exists x :: At(s, d, x)) || s.deques[d].empty
  {
    ReachableInv(s);
    assert DequeOk(s, d);
    hide WaitsForEarlier;
    match s.deques[d].place
    case Active(w) => assert At(s, d, OnWorker(w));
    case InPool(w, k) => assert At(s, d, InSlotOf(w, k, s.deques[d].self));
    case Limbo => 
      forall x ensures !At(s, d, x) { if At(s, d, x) { AtPlace(s, d, x); } }
    case Transit(w) => assert At(s, d, InHand(w));
    case Held(w) => assert At(s, d, InHand(w));
    case Posting(w) => assert At(s, d, InHand(w));
  }

  /** The back-pointers are true, and a pool's kind agrees with the flag. */
  lemma BackPointersAgree(s: State, d: nat, w: nat)
    requires Reachable(s) && w < |s.workers| && d in s.deques
    ensures At(s, d, OnWorker(w)) ==> s.deques[d].self == ACTIVE_DEQUE_INDEX && s.deques[d].worker == Some(w)
    ensures forall k, i :: At(s, d, InSlotOf(w, k, i)) ==>
      s.deques[d].self == i && s.deques[d].worker == Some(w) && s.deques[d].resumable == (k == Resumables)
  {
    ReachableInv(s);
    assert WorkerOk(s, w) && DequeOk(s, d);
  }

  /** A deque with something to steal that is not some worker's own, nor in the hands of one that is moving
      it, is in a pool, where thieves look: and if that worker has no resumable deque, any worker that
      looks for work can steal from it now. */
  lemma WorkIsVisible(s: State, d: nat, thief: nat) returns (v: nat, k: Kind, i: nat)
    requires Reachable(s) && d in s.deques && !s.deques[d].empty && thief < |s.workers| && s.workers[thief].pc == Running
    requires forall w :: 0 <= w < |s.workers| ==> !At(s, d, OnWorker(w)) && !At(s, d, InHand(w))
    ensures v < |s.workers| && At(s, d, InSlotOf(v, k, i)) && (k == Resumables <==> s.deques[d].resumable)
    ensures k == Stealable && s.workers[v].resumables == [] ==> Enabled(s, StealFrom(thief, v, i, true))
    ensures k == Resumables ==> Enabled(s, Jump(thief, v))
  {
    hide Workers, TicketOk, Reachable, PlaceOk, At;
    ReachableInv(s);
    assert DequeOk(s, d);
    hide Inv, Deques;
    var x := s.deques[d].place;
    InPoolOtherwise(s, d);
    v, k, i := x.w, x.kind, s.deques[d].self;
    InThatPool(s, d);
  }

  lemma InPoolOtherwise(s: State, d: nat)
    requires d in s.deques && PlaceOk(s, d) && !s.deques[d].empty
    requires forall w :: 0 <= w < |s.workers| ==> !At(s, d, OnWorker(w)) && !At(s, d, InHand(w))
    ensures s.deques[d].place.InPool? && (s.deques[d].place.kind == Resumables <==> s.deques[d].resumable)
  {
    var x := s.deques[d].place;
    assert x.Active? ==> At(s, d, OnWorker(x.w));
    assert x.Transit? || x.Held? || x.Posting? ==> At(s, d, InHand(x.w));
  }

  lemma InThatPool(s: State, d: nat)
    requires Inv(s) && d in s.deques && s.deques[d].place.InPool? && !s.deques[d].empty
    ensures var v, k, i := s.deques[d].place.w, s.deques[d].place.kind, s.deques[d].self;
      && v < |s.workers| && 0 <= i && At(s, d, InSlotOf(v, k, i)) && (k == Resumables ==> s.workers[v].resumables != [])
      && (k == Stealable && s.workers[v].resumables == [] ==> Chosen(s, v, i) && s.workers[v].suspended[i] == d)
  {
    hide Deques, Workers;
  }

  /** A suspended deque that is not resumable is still wanted, or is being resumed by exactly the
      worker whose step names it; a resumable one needs nobody: it is where thieves look. */
  lemma EverySuspensionIsAnswered(s: State, d: nat, w: nat, k: Kind, i: nat)
    requires Reachable(s) && d in s.deques && At(s, d, InSlotOf(w, k, i))
    ensures k == Resumables <==> s.deques[d].ticket == NoTicket
    ensures s.deques[d].ticket.Claimed? ==> s.deques[d].ticket.w < |s.workers| && Claiming(s.workers[s.deques[d].ticket.w].pc, d)
    ensures forall u, v :: 0 <= u < |s.workers| && 0 <= v < |s.workers| && Claiming(s.workers[u].pc, d) && Claiming(s.workers[v].pc, d) ==> u == v
  {
    ReachableInv(s);
    assert DequeOk(s, d);
    hide PlaceOk, WaitsForEarlier, Pools;
    forall u | 0 <= u < |s.workers| && Claiming(s.workers[u].pc, d) ensures s.deques[d].ticket == Claimed(u) {
      assert WorkerOk(s, u);
    }
  }

  /** The routines that resume a deque assert on entry, before they wait for its fiber, that it is not
      resumable.  It is so at every moment at which someone is to resume it, from the decision to
      suspend it on; an active deque is resumable only if its worker marked it so and is about to
      switch away from it, and then nobody is to resume it. */
  lemma EntryAssertions(s: State, d: nat, w: nat)
    requires Reachable(s) && d in s.deques && w < |s.workers|
    ensures s.deques[d].ticket != NoTicket ==> !s.deques[d].resumable
    ensures s.workers[w].active == d ==>
      && (s.deques[d].resumable <==> s.workers[w].pc.Switching? && s.workers[w].pc.marked)
      && (s.deques[d].ticket != NoTicket <==> Owing(s.workers[w].pc))
  {
    ReachableInv(s);
    assert DequeOk(s, d) && WorkerOk(s, w);
    hide WaitsForEarlier, Pools, Reachable;
  }

  // ---------------------------------------------------------------- waiting

  /** The worker that has still to leave the fiber of `d`, or to put one there. */
  function ToLeave(s: State, d: nat): Option<nat> {
    if d !in s.deques then None
    else match s.deques[d].fiber
      case Leaving(v) => Some(v)
      case Parked => None
      case NoFiber => s.deques[d].worker
  }

  /** Whom a worker waits for in one of the four loops that spin on a fiber: after a switch, after a jump,
      and on entry to the two routines that resume. */
  function WaitsFor(s: State, w: nat): Option<nat>
    requires w < |s.workers|
  {
    match s.workers[w].pc
    case SwitchingFiber(_, _) => ToLeave(s, s.workers[w].active)
    case Jumping(d) => ToLeave(s, d)
    case Awaiting(d, _) => ToLeave(s, d)
    case _ => None
  }

  ghost predicate CanMove(s: State, w: nat) {
    w < |s.workers| && s.workers[w].pc != Running && exists a :: Enabled(s, a) && a.w == w
  }

  /** `ws` starts at `w`; each waits for the next, and the last waits for nobody. */
  ghost predicate WaitChain(s: State, w: nat, ws: seq<nat>) {
    && ws != [] && ws[0] == w
    && (forall i :: 0 <= i < |ws| ==> ws[i] < |s.workers|)
    && (forall i :: 0 <= i < |ws| - 1 ==> WaitsFor(s, ws[i]) == Some(ws[i + 1]))
    && WaitsFor(s, ws[|ws| - 1]) == None
  }

  /** Workers that spin on fibers never wait for each other in a cycle: whoever is in the middle of
      something, the chain of workers it waits for ends, and the last one can take a step. */
  lemma NeverAllSpin(s: State, w: nat) returns (ws: seq<nat>)
    requires Reachable(s) && w < |s.workers| && s.workers[w].pc != Running
    ensures WaitChain(s, w, ws) && CanMove(s, ws[|ws| - 1])
  {
    ReachableInv(s);
    hide Reachable, Pools, Deques, Workers, WaitChain, CanMove;
    if Suspending(s.workers[w].pc) {
      ws := SuspensionEnds(s, w);
    } else if s.workers[w].pc.Jumping? || s.workers[w].pc.Awaiting? {
      ws := WaitEnds(s, w);
    } else {
      ws := [w];
      NothingToWaitFor(s, w);
      OneLink(s, w);
    }
  }

  function NextStep(pc: Pc, w: nat): Action {
    match pc
    case Running => Suspend(w)
    case Choosing => Choose(w)
    case Switching(_, _, _) => Switch(w, true)
    case Placing(_, _) => PlaceOld(w, w)
    case SwitchingFiber(_, _) => SwitchFiber(w)
    case Jumping(_) => Land(w)
    case Awaiting(_, _) => SeeParked(w)
    case Reviving(_, _) => Revive(w)
    case RevivingFree(_) => AdoptFree(w, w)
    case PostingTo(_, _) => Post(w)
    case Resuming(_, _, _) => MugToResume(w)
    case Got(_, mode) => if mode == 2 then GoDirect(w) else GoSuspending(w)
  }

  predicate Spins(pc: Pc) {
    pc.SwitchingFiber? || pc.Jumping? || pc.Awaiting?
  }

  /** These steps are never held up. */
  lemma NothingToWaitFor(s: State, w: nat)
    requires w < |s.workers| && s.workers[w].pc != Running && !Spins(s.workers[w].pc) && WorkerOk(s, w)
    ensures CanMove(s, w) && WaitsFor(s, w) == None
  {
    hide WaitsForEarlier, DequeOk;
    var a := NextStep(s.workers[w].pc, w);
    assert Enabled(s, a);
  }

  lemma OneLink(s: State, w: nat)
    requires w < |s.workers| && WaitsFor(s, w) == None
    ensures WaitChain(s, w, [w])
  {
  }

  lemma MoreLinks(s: State, w: nat, v: nat, ws: seq<nat>)
    requires w < |s.workers| && WaitsFor(s, w) == Some(v) && WaitChain(s, v, ws)
    ensures WaitChain(s, w, [w] + ws) && ([w] + ws)[|ws|] == ws[|ws| - 1]
  {
    hide WaitsFor;
  }

  /** A worker that looks at a fiber of another deque than its own. */
  lemma WaitEnds(s: State, w: nat) returns (ws: seq<nat>)
    requires Deques(s) && Workers(s) && w < |s.workers| && (s.workers[w].pc.Jumping? || s.workers[w].pc.Awaiting?)
    ensures WaitChain(s, w, ws) && CanMove(s, ws[|ws| - 1])
  {
    assert WorkerOk(s, w);
    var d := s.workers[w].pc.d;
    assert DequeOk(s, d);
    hide WaitsForEarlier, WaitChain;
    if s.deques[d].fiber == Parked {
      ws := [w];
      assert Enabled(s, NextStep(s.workers[w].pc, w));
      OneLink(s, w);
    } else if s.deques[d].fiber == NoFiber {
      var v := s.deques[d].worker.value;
      assert WorkerOk(s, v);
      hide Enabled, DequeOk, WorkerOk;
      NothingToWaitFor(s, v);
      OneLink(s, v);
      MoreLinks(s, w, v, [v]);
      ws := [w, v];
      assert [w] + [v] == ws;
    } else {
      var v := s.deques[d].fiber.w;
      hide Enabled, DequeOk, WorkerOk;
      var rest := SuspensionEnds(s, v);
      MoreLinks(s, w, v, rest);
      ws := [w] + rest;
    }
  }

  /** Each worker that leaves a fiber waits for one that chose earlier. */
  lemma {:induction false} SuspensionEnds(s: State, w: nat) returns (ws: seq<nat>)
    requires Deques(s) && Workers(s) && w < |s.workers| && Suspending(s.workers[w].pc)
    ensures WaitChain(s, w, ws) && CanMove(s, ws[|ws| - 1])
    decreases s.workers[w].pc.stamp
  {
    assert WorkerOk(s, w);
    var me := s.workers[w];
    hide WaitChain;
    if me.pc.Placing? {
      ws := [w];
      assert Enabled(s, PlaceOld(w, w));
      OneLink(s, w);
    } else if s.deques[me.active].fiber == Parked {
      ws := [w];
      assert Enabled(s, SwitchFiber(w));
      OneLink(s, w);
    } else {
      var v := s.deques[me.active].fiber.w;
      var rest := SuspensionEnds(s, v);
      MoreLinks(s, w, v, rest);
      ws := [w] + rest;
    }
  }
}
