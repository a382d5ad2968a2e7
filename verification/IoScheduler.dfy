/**
 The I/O thread: operations are tried at once, kept in per-descriptor queues while the
 descriptor would block, and retried when it becomes ready.  The kernel's answers are
 arbitrary.  `calls` records every system call with its answer, `moved` every transfer the kernel
 made, `completed` every future that was given its result, and `interest` is what epoll watches;
 what holds of them holds for every sequence of answers and events.
*/
module IoScheduler {

  datatype Direction = Read | Write

  /** What a caller asked for. */
  datatype Request = Request(fildes: int, dir: Direction, buf: int, nbyte: nat)

  /** An operation on its way: `id` is its position in the order of submission. */
  datatype Op = Op(id: nat, fildes: int, dir: Direction, buf: int, nbyte: int, res: int)

  /** A transfer of `n` bytes at `addr`. */
  datatype Move = Move(id: nat, addr: int, n: nat)

  datatype Completion = Completion(id: nat, ret: int)

  /** The kernel's answer: a byte count, or an error that says to try again, or another error. */
  datatype Answer = Bytes(n: nat) | TryAgain | Failed

  // ---------------------------------------------------------------- accounting

  /** Bytes transferred for an operation. */
  ghost function Total(moved: seq<Move>, id: nat): int {
    if moved == [] then 0
    else Total(moved[..|moved| - 1], id) + (if moved[|moved| - 1].id == id then moved[|moved| - 1].n else 0)
  }

  /** Each transfer starts where the one before it, of the same operation, ended. */
  ghost predicate GapFree(requests: seq<Request>, moved: seq<Move>) {
    forall i :: 0 <= i < |moved| ==>
      moved[i].id < |requests| && moved[i].addr == requests[moved[i].id].buf + Total(moved[..i], moved[i].id)
  }

  /** An operation's buffer and length are those of the request less what has been transferred. */
  ghost predicate OnTrack(requests: seq<Request>, moved: seq<Move>, op: Op) {
    && op.id < |requests|
    && var q := requests[op.id];
    && op.fildes == q.fildes && op.dir == q.dir && op.res == Total(moved, op.id)
    && op.buf == q.buf + op.res && op.nbyte == q.nbyte - op.res && 0 <= op.res <= q.nbyte
  }

  lemma TotalAppend(moved: seq<Move>, m: Move, id: nat)
    ensures Total(moved + [m], id) == Total(moved, id) + (if m.id == id then m.n else 0)
  {
    assert (moved + [m])[..|moved|] == moved;
  }

  lemma GapFreeAppend(requests: seq<Request>, moved: seq<Move>, m: Move)
    requires GapFree(requests, moved) && m.id < |requests| && m.addr == requests[m.id].buf + Total(moved, m.id)
    ensures GapFree(requests, moved + [m])
  {
    forall i | 0 <= i < |moved + [m]| ensures (moved + [m])[..i] == if i < |moved| then moved[..i] else moved {}
  }

  // ---------------------------------------------------------------- order

  /** Positions of the requests for a descriptor and direction, in order of submission. */
  ghost function Submitted(requests: seq<Request>, fd: int, dir: Direction): seq<nat> {
    if requests == [] then []
    else
      var last := |requests| - 1;
      Submitted(requests[..last], fd, dir) + (if requests[last].fildes == fd && requests[last].dir == dir then [last] else [])
  }

  /** Those whose futures have been given a result, in the order in which that happened. */
  ghost function Finished(requests: seq<Request>, completed: seq<Completion>, fd: int, dir: Direction): seq<nat> {
    if completed == [] then []
    else
      var c := completed[|completed| - 1];
      Finished(requests, completed[..|completed| - 1], fd, dir)
      + (if c.id < |requests| && requests[c.id].fildes == fd && requests[c.id].dir == dir then [c.id] else [])
  }

  ghost function Ids(q: seq<Op>): (ids: seq<nat>)
    ensures |ids| == |q| && forall i :: 0 <= i < |q| ==> ids[i] == q[i].id
  {
    if q == [] then [] else Ids(q[..|q| - 1]) + [q[|q| - 1].id]
  }

  ghost predicate Increasing(ids: seq<nat>) {
    forall i, j :: 0 <= i < j < |ids| ==> ids[i] < ids[j]
  }

  lemma {:induction false} SubmittedIncreasing(requests: seq<Request>, fd: int, dir: Direction)
    ensures var ids := Submitted(requests, fd, dir);
      Increasing(ids) && forall i :: 0 <= i < |ids| ==> ids[i] < |requests|
  {
    if requests != [] {
      SubmittedIncreasing(requests[..|requests| - 1], fd, dir);
    }
  }

  lemma SubmittedAppend(requests: seq<Request>, r: Request, fd: int, dir: Direction)
    ensures Submitted(requests + [r], fd, dir)
         == Submitted(requests, fd, dir) + (if r.fildes == fd && r.dir == dir then [|requests|] else [])
  {
    assert (requests + [r])[..|requests|] == requests;
  }

  lemma FinishedAppend(requests: seq<Request>, completed: seq<Completion>, c: Completion, fd: int, dir: Direction)
    ensures Finished(requests, completed + [c], fd, dir)
         == Finished(requests, completed, fd, dir)
            + (if c.id < |requests| && requests[c.id].fildes == fd && requests[c.id].dir == dir then [c.id] else [])
  {
    assert (completed + [c])[..|completed|] == completed;
  }

  lemma {:induction false} FinishedSame(requests: seq<Request>, more: seq<Request>, completed: seq<Completion>, fd: int, dir: Direction)
    requires forall i :: 0 <= i < |completed| ==> completed[i].id < |requests|
    ensures Finished(requests + more, completed, fd, dir) == Finished(requests, completed, fd, dir)
  {
    if completed != [] {
      FinishedSame(requests, more, completed[..|completed| - 1], fd, dir);
    }
  }

  // ---------------------------------------------------------------- the books

  /** One direction: a retry queue per descriptor, the descriptors that would block, and those to be
      taken out of epoll. */
  datatype Side = Side(queues: map<int, seq<Op>>, blocked: set<int>, ready: set<int>)

  const EMPTY := Side(map[], {}, {})

  function QueueOf(side: Side, fd: int): seq<Op> {
    if fd in side.queues then side.queues[fd] else []
  }

  function SideOf(readSide: Side, writeSide: Side, dir: Direction): Side {
    if dir == Read then readSide else writeSide
  }

  /** Nothing is lost, repeated or reordered: what was submitted is what is finished followed by
      what is queued. */
  ghost predicate InOrder(requests: seq<Request>, completed: seq<Completion>, q: seq<Op>, fd: int, dir: Direction) {
    Submitted(requests, fd, dir) == Finished(requests, completed, fd, dir) + Ids(q)
  }

  ghost predicate AllOnTrack(requests: seq<Request>, moved: seq<Move>, q: seq<Op>, fd: int, dir: Direction) {
    forall i :: 0 <= i < |q| ==> q[i].fildes == fd && q[i].dir == dir && OnTrack(requests, moved, q[i])
  }

  /** A result is the number of bytes that were transferred, or an error. */
  ghost predicate Truthful(requests: seq<Request>, moved: seq<Move>, completed: seq<Completion>) {
    forall i :: 0 <= i < |completed| ==>
      && completed[i].id < |requests|
      && 0 <= Total(moved, completed[i].id) <= requests[completed[i].id].nbyte
      && (completed[i].ret == Total(moved, completed[i].id) || completed[i].ret == -1)
  }

  ghost predicate Books(requests: seq<Request>, moved: seq<Move>, completed: seq<Completion>, readSide: Side, writeSide: Side) {
    && GapFree(requests, moved) && Truthful(requests, moved, completed)
    && (forall i :: 0 <= i < |requests| ==> requests[i].nbyte < SIZE_MAX)
    && (forall fd, dir :: Ledger(requests, moved, completed, QueueOf(SideOf(readSide, writeSide, dir), fd), fd, dir))
  }

  ghost predicate Ledger(requests: seq<Request>, moved: seq<Move>, completed: seq<Completion>, q: seq<Op>, fd: int, dir: Direction) {
    InOrder(requests, completed, q, fd, dir) && AllOnTrack(requests, moved, q, fd, dir)
  }

  /** A descriptor is blocked exactly when operations wait for it, and is not to be taken out of epoll then. */
  ghost predicate Flags(side: Side) {
    && (forall fd :: fd in side.blocked <==> QueueOf(side, fd) != [])
    && (forall fd :: fd in side.ready ==> QueueOf(side, fd) == [])
  }

  // ---------------------------------------------------------------- which operations are tried

  /** A system call that was made for an operation, and its answer. */
  datatype Call = Call(id: nat, fildes: int, dir: Direction, answer: Answer)

  /** Those for one descriptor and direction. */
  ghost function About(calls: seq<Call>, fd: int, dir: Direction): seq<Call> {
    if calls == [] then []
    else
      var c := calls[|calls| - 1];
      About(calls[..|calls| - 1], fd, dir) + (if c.fildes == fd && c.dir == dir then [c] else [])
  }

  lemma {:induction false} AboutAppend(a: seq<Call>, b: seq<Call>, fd: int, dir: Direction)
    ensures About(a + b, fd, dir) == About(a, fd, dir) + About(b, fd, dir)
    decreases |b|
  {
    if b == [] {
      assert a + b == a;
    } else {
      assert (a + b)[..|a + b| - 1] == a + b[..|b| - 1];
      AboutAppend(a, b[..|b| - 1], fd, dir);
    }
  }

  lemma {:induction false} AboutAll(calls: seq<Call>, f: int, d: Direction, fd: int, dir: Direction)
    requires forall i :: 0 <= i < |calls| ==> calls[i].fildes == f && calls[i].dir == d
    ensures About(calls, fd, dir) == if f == fd && d == dir then calls else []
  {
    if calls != [] {
      AboutAll(calls[..|calls| - 1], f, d, fd, dir);
    }
  }

  /** The kernel said something else than "try again" about operation `id`. */
  ghost predicate Answered(calls: seq<Call>, id: nat) {
    exists i :: 0 <= i < |calls| && calls[i].id == id && calls[i].answer != TryAgain
  }

  lemma AnsweredMore(a: seq<Call>, b: seq<Call>, id: nat)
    requires Answered(a, id) || Answered(b, id)
    ensures Answered(a + b, id)
  {
    if i :| 0 <= i < |a| && a[i].id == id && a[i].answer != TryAgain {
      assert (a + b)[i] == a[i];
    } else {
      var i :| 0 <= i < |b| && b[i].id == id && b[i].answer != TryAgain;
      assert (a + b)[|a| + i] == b[i];
    }
  }

  /** The last call asked for the operation that is now at the front, and would have blocked. */
  ghost predicate WouldBlock(calls: seq<Call>, q: seq<Op>)
    requires calls != [] && q != []
  {
    var c := calls[|calls| - 1];
    c.id == q[0].id && c.answer == TryAgain
  }

  /** Operations leave a line from its front, each having had an answer; `left` still wait. */
  ghost predicate LeaveInOrder(line: seq<nat>, left: seq<nat>, calls: seq<Call>) {
    && |left| <= |line| && left == line[|line| - |left|..]
    && forall i :: 0 <= i < |line| - |left| ==> Answered(calls, line[i])
  }

  lemma LeaveTwice(line: seq<nat>, middle: seq<nat>, later: seq<nat>, left: seq<nat>, calls: seq<Call>, more: seq<Call>)
    requires LeaveInOrder(line, middle, calls) && LeaveInOrder(middle + later, left, more)
    ensures LeaveInOrder(line + later, left, calls + more)
  {
    var m, n, all := |line| - |middle|, |middle + later| - |left|, line + later;
    assert middle + later == all[m..];
    forall i | 0 <= i < m + n ensures Answered(calls + more, all[i]) {
      assert all[i] == if i < m then line[i] else (middle + later)[i - m];
      AnsweredMore(calls, more, all[i]);
    }
  }

  /** What becomes of the queue of a descriptor and direction, when `calls` are the system calls made
      for them, `reported` says whether they were reported as ready, and `news` are the operations
      submitted.  Operations leave from the front, each having had an answer.  Those that wait are tried
      exactly when a report comes, the front one first, and new ones when none waits; and trying stops
      only when none is left or when the front one would block. */
  ghost predicate Served(q: seq<Op>, r: seq<Op>, calls: seq<Call>, reported: bool, news: seq<nat>) {
    && LeaveInOrder(Ids(q) + news, Ids(r), calls)
    && (q != [] ==> (calls != [] <==> reported))
    && (q == [] ==> (calls != [] <==> news != []))
    && (calls == [] ==> q <= r)
    && (calls != [] ==> Ids(q) + news != [] && calls[0].id == (Ids(q) + news)[0])
    && (calls != [] && r != [] ==> WouldBlock(calls, r))
  }

  lemma ServedNothing(q: seq<Op>)
    ensures Served(q, q, [], false, [])
  {
    assert Ids(q) + [] == Ids(q);
  }

  /** With no call nothing leaves the queue. */
  lemma ServedIdle(q: seq<Op>, r: seq<Op>, reported: bool, news: seq<nat>)
    requires Served(q, r, [], reported, news)
    ensures q <= r && Ids(r) == Ids(q) + news
  {
    hide Ids;
    var line := Ids(q) + news;
    assert |line| > |r| ==> Answered([], line[0]);
    assert line[0..] == line;
  }

  /** One thing after another. */
  lemma ServedTwice(q: seq<Op>, r: seq<Op>, t: seq<Op>, calls: seq<Call>, more: seq<Call>, a: bool, b: bool, news: seq<nat>, later: seq<nat>)
    requires Served(q, r, calls, a, news) && Served(r, t, more, b, later)
    ensures Served(q, t, calls + more, a || b, news + later)
  {
    hide Ids, Answered, LeaveInOrder;
    LeaveTwice(Ids(q) + news, Ids(r), later, Ids(t), calls, more);
    assert Ids(q) + (news + later) == Ids(q) + news + later;
    if calls == [] {
      ServedIdle(q, r, a, news);
      assert calls + more == more;
    } else if more == [] {
      ServedIdle(r, t, b, later);
      assert calls + more == calls;
    } else {
      assert (calls + more)[0] == calls[0] && (calls + more)[|calls + more| - 1] == more[|more| - 1];
    }
  }

  ghost predicate AllAbout(calls: seq<Call>, fd: int, dir: Direction) {
    forall i :: 0 <= i < |calls| ==> calls[i].fildes == fd && calls[i].dir == dir
  }

  ghost predicate Below(calls: seq<Call>, n: nat) {
    forall i :: 0 <= i < |calls| ==> calls[i].id < n
  }

  ghost predicate AllFor(calls: seq<Call>, id: nat) {
    forall i :: 0 <= i < |calls| ==> calls[i].id == id
  }

  /** Retries of operations older than `n` come first, and then the new ones in their order. */
  ghost predicate RetriesFirst(calls: seq<Call>, n: nat) {
    forall i, j :: 0 <= i < j < |calls| && calls[i].id >= n ==> calls[i].id <= calls[j].id
  }

  lemma RetriesOnly(calls: seq<Call>, n: nat)
    requires Below(calls, n)
    ensures RetriesFirst(calls, n)
  {
  }

  lemma NewLast(calls: seq<Call>, more: seq<Call>, n: nat, id: nat)
    requires RetriesFirst(calls, n) && Below(calls, id) && AllFor(more, id)
    ensures RetriesFirst(calls + more, n) && Below(calls + more, id + 1)
  {
    forall i, j | 0 <= i < j < |calls + more| && (calls + more)[i].id >= n ensures (calls + more)[i].id <= (calls + more)[j].id {
      assert i < |calls| ==> (calls + more)[i] == calls[i];
      assert j < |calls| ==> (calls + more)[j] == calls[j];
    }
  }

  /** The front operation was tried: it is gone, or still the front one when it would block. */
  ghost predicate OneTry(q: seq<Op>, r: seq<Op>, calls: seq<Call>, blocked: bool) {
    && q != [] && calls != [] && (forall i :: 0 <= i < |calls| ==> calls[i].id == q[0].id)
    && blocked == (calls[|calls| - 1].answer == TryAgain)
    && if blocked then |r| == |q| && r[0].id == q[0].id && r[1..] == q[1..] else r == q[1..]
  }

  /** Part of the way through a queue. */
  ghost predicate Partly(q: seq<Op>, r: seq<Op>, calls: seq<Call>, blocked: bool) {
    && LeaveInOrder(Ids(q), Ids(r), calls)
    && (calls == [] ==> r == q && !blocked)
    && (calls != [] ==> q != [] && calls[0].id == q[0].id)
    && (blocked ==> calls != [] && r != [] && WouldBlock(calls, r))
  }

  lemma PartlyNothing(q: seq<Op>, fd: int, dir: Direction)
    ensures Partly(q, q, [], false) && AllAbout([], fd, dir)
  {
  }

  lemma IdsTail(q: seq<Op>)
    requires q != []
    ensures Ids(q) == [q[0].id] + Ids(q[1..])
  {
    hide Ids;
    assert forall i :: 0 <= i < |Ids(q)| ==> Ids(q)[i] == ([q[0].id] + Ids(q[1..]))[i];
  }

  lemma PartlyMore(q: seq<Op>, r: seq<Op>, t: seq<Op>, calls: seq<Call>, more: seq<Call>, blocked: bool, fd: int, dir: Direction)
    requires Partly(q, r, calls, false) && OneTry(r, t, more, blocked) && AllAbout(calls, fd, dir) && AllAbout(more, fd, dir)
    ensures Partly(q, t, calls + more, blocked) && AllAbout(calls + more, fd, dir)
  {
    hide Ids, OneTry, LeaveInOrder;
    OneTryLeaves(r, t, more, blocked);
    OneTryFacts(r, t, more, blocked);
    assert Ids(r) + [] == Ids(r) && Ids(q) + [] == Ids(q);
    LeaveTwice(Ids(q), Ids(r), [], Ids(t), calls, more);
    assert (calls + more)[|calls + more| - 1] == more[|more| - 1];
    assert (calls + more)[0] == if calls == [] then more[0] else calls[0];
  }

  lemma OneTryLeaves(q: seq<Op>, r: seq<Op>, calls: seq<Call>, blocked: bool)
    requires OneTry(q, r, calls, blocked)
    ensures LeaveInOrder(Ids(q), Ids(r), calls)
    ensures blocked ==> r != [] && WouldBlock(calls, r)
  {
    hide Ids;
    IdsTail(q);
    if blocked {
      IdsTail(r);
    } else {
      assert Ids(r) == Ids(q)[1..];
      assert calls[|calls| - 1].id == q[0].id;
    }
  }

  /** All the way, or to where it would block. */
  lemma PartlyServed(q: seq<Op>, r: seq<Op>, calls: seq<Call>, blocked: bool)
    requires Partly(q, r, calls, blocked) && (r == [] || blocked)
    ensures Served(q, r, calls, true, [])
  {
    hide LeaveInOrder, Ids;
    assert Ids(q) + [] == Ids(q);
  }

  /** A new operation behind others. */
  lemma ServedLater(q: seq<Op>, r: seq<Op>, id: nat)
    requires |r| == |q| + 1 && q <= r && r[|q|].id == id
    ensures q != [] ==> Served(q, r, [], false, [id])
  {
    hide Ids;
    assert r == q + [r[|q|]];
    IdsAppend(q, r[|q|]);
  }

  /** A new operation when none waits. */
  lemma ServedAtOnce(q: seq<Op>, r: seq<Op>, calls: seq<Call>, blocked: bool)
    requires |q| == 1 && OneTry(q, r, calls, blocked)
    ensures Served([], r, calls, false, [q[0].id]) && (blocked <==> r != [])
  {
    hide Ids, OneTry, LeaveInOrder;
    OneTryLeaves(q, r, calls, blocked);
    OneTryFacts(q, r, calls, blocked);
    var line := Ids([]) + [q[0].id];
    assert line == Ids(q);
  }

  lemma OneTryFacts(q: seq<Op>, r: seq<Op>, calls: seq<Call>, blocked: bool)
    requires OneTry(q, r, calls, blocked)
    ensures q != [] && calls != [] && calls[0].id == q[0].id && |r| == |q| - (if blocked then 0 else 1)
  {
  }

  // ---------------------------------------------------------------- the code

  const SIZE_MAX: nat := 0x1_0000_0000_0000_0000
  const MAX_RW_COUNT: nat := 0x7fff_f000

  /** `size_t` arithmetic. */
  function Size(x: int): nat {
    x % SIZE_MAX
  }

  /** What a read or write system call may answer: never more than was asked for, nor more than
      the kernel transfers at once. */
  method Syscall(nbyte: nat) returns (a: Answer)
    ensures a.Bytes? ==> a.n <= nbyte && a.n <= MAX_RW_COUNT
  {
    var choice: int := *;
    if choice == 0 {
      a := TryAgain;
    } else if choice == 1 {
      a := Failed;
    } else {
      var n: nat :| n <= nbyte && n <= MAX_RW_COUNT;
      a := Bytes(n);
    }
  }

  /** The transfers of every other operation are what they were. */
  ghost predicate OthersSame(m0: seq<Move>, m: seq<Move>, id: nat) {
    forall j: nat :: j != id ==> Total(m, j) == Total(m0, j)
  }

  lemma OthersReflexive(m: seq<Move>, id: nat)
    ensures OthersSame(m, m, id)
  {
  }

  lemma OthersTransitive(a: seq<Move>, b: seq<Move>, c: seq<Move>, id: nat)
    requires OthersSame(a, b, id) && OthersSame(b, c, id)
    ensures OthersSame(a, c, id)
  {
  }

  /** A transfer that starts at the operation's buffer keeps the accounts. */
  lemma MoveOnTrack(requests: seq<Request>, moved: seq<Move>, op: Op, n: nat)
    requires GapFree(requests, moved) && OnTrack(requests, moved, op) && n <= op.nbyte && requests[op.id].nbyte < SIZE_MAX
    ensures var m := moved + [Move(op.id, op.buf, n)];
      && GapFree(requests, m) && OthersSame(moved, m, op.id)
      && OnTrack(requests, m, op.(nbyte := Size(op.nbyte - n), res := op.res + n, buf := op.buf + n))
      && Size(op.nbyte - n) == op.nbyte - n
  {
    hide GapFree, Total, Size;
    var move := Move(op.id, op.buf, n);
    SizeExact(op.nbyte - n);
    GapFreeAppend(requests, moved, move);
    forall j: nat ensures Total(moved + [move], j) == Total(moved, j) + (if op.id == j then n else 0) {
      TotalAppend(moved, move, j);
    }
  }

  lemma SizeExact(x: int)
    requires 0 <= x < SIZE_MAX
    ensures Size(x) == x
  {
  }

  lemma OnTrackFacts(requests: seq<Request>, moved: seq<Move>, op: Op)
    requires OnTrack(requests, moved, op)
    ensures op.id < |requests| && op.res == Total(moved, op.id) && 0 <= op.res <= requests[op.id].nbyte
    ensures 0 <= op.nbyte == requests[op.id].nbyte - op.res
    ensures requests[op.id].nbyte < SIZE_MAX ==> Size(Size(op.nbyte + 1) - 1) == op.nbyte
  {
  }

  lemma EmptyBooks()
    ensures Books([], [], [], EMPTY, EMPTY) && Flags(EMPTY)
  {
    hide Ledger, QueueOf, SideOf, Flags, GapFree, Truthful;
    EmptyQueues();
    EmptyAccounts();
    forall fd, dir ensures Ledger([], [], [], QueueOf(SideOf(EMPTY, EMPTY, dir), fd), fd, dir) {
      EmptyLedger(fd, dir);
    }
  }

  lemma EmptyAccounts()
    ensures GapFree([], []) && Truthful([], [], [])
  {
    hide Total;
  }

  lemma EmptyQueues()
    ensures Flags(EMPTY) && forall fd, dir :: QueueOf(SideOf(EMPTY, EMPTY, dir), fd) == []
  {
  }

  lemma EmptyLedger(fd: int, dir: Direction)
    ensures Ledger([], [], [], [], fd, dir)
  {
  }

  // ---------------------------------------------------------------- keeping the books

  lemma {:induction false} FinishedHas(requests: seq<Request>, completed: seq<Completion>, i: nat)
    requires i < |completed| && completed[i].id < |requests|
    ensures completed[i].id in Finished(requests, completed, requests[completed[i].id].fildes, requests[completed[i].id].dir)
  {
    if i < |completed| - 1 {
      FinishedHas(requests, completed[..|completed| - 1], i);
    }
  }

  /** The first waiting operation has no result yet, and waits only once. */
  lemma FrontIsOpen(requests: seq<Request>, moved: seq<Move>, completed: seq<Completion>, q: seq<Op>, fd: int, dir: Direction)
    requires q != [] && Ledger(requests, moved, completed, q, fd, dir) && Truthful(requests, moved, completed)
    ensures forall i :: 0 <= i < |completed| ==> completed[i].id != q[0].id
    ensures forall j :: 1 <= j < |q| ==> q[j].id != q[0].id
  {
    SubmittedIncreasing(requests, fd, dir);
    var done, ids, all := Finished(requests, completed, fd, dir), Ids(q), Submitted(requests, fd, dir);
    assert forall j :: 0 <= j < |q| ==> all[|done| + j] == q[j].id;
    assert forall n :: 0 <= n < |done| ==> all[n] == done[n];
    assert q[0].id !in done;
    forall i | 0 <= i < |completed| ensures completed[i].id != q[0].id {
      FinishedHas(requests, completed, i);
    }
  }

  /** Transfers of one operation do not touch the books of the others. */
  lemma LedgerOther(requests: seq<Request>, m0: seq<Move>, m: seq<Move>, completed: seq<Completion>, q: seq<Op>,
                    fd: int, dir: Direction, id: nat)
    requires Ledger(requests, m0, completed, q, fd, dir) && OthersSame(m0, m, id)
    requires forall j :: 0 <= j < |q| ==> q[j].id != id
    ensures Ledger(requests, m, completed, q, fd, dir)
  {
    hide InOrder, Total;
  }

  lemma NotOfThisQueue(requests: seq<Request>, moved: seq<Move>, completed: seq<Completion>, q: seq<Op>, fd: int, dir: Direction, id: nat)
    requires Ledger(requests, moved, completed, q, fd, dir) && id < |requests|
    requires !(requests[id].fildes == fd && requests[id].dir == dir)
    ensures forall j :: 0 <= j < |q| ==> q[j].id != id
  {
    hide InOrder, Total;
  }

  lemma LedgerFinished(requests: seq<Request>, moved: seq<Move>, completed: seq<Completion>, q: seq<Op>, fd: int, dir: Direction, c: Completion)
    requires Ledger(requests, moved, completed, q, fd, dir) && c.id < |requests|
    requires !(requests[c.id].fildes == fd && requests[c.id].dir == dir)
    ensures Ledger(requests, moved, completed + [c], q, fd, dir)
  {
    FinishedAppend(requests, completed, c, fd, dir);
    hide AllOnTrack, Submitted, Finished, Ids;
  }

  lemma FrontFinished(requests: seq<Request>, moved: seq<Move>, completed: seq<Completion>, q: seq<Op>, fd: int, dir: Direction, c: Completion)
    requires q != [] && c.id == q[0].id && q[0].id < |requests| && InOrder(requests, completed, q, fd, dir)
    requires AllOnTrack(requests, moved, q[1..], fd, dir) && requests[c.id].fildes == fd && requests[c.id].dir == dir
    ensures Ledger(requests, moved, completed + [c], q[1..], fd, dir)
  {
    hide AllOnTrack, Submitted, Finished, Ids;
    FinishedAppend(requests, completed, c, fd, dir);
    IdsTail(q);
  }

  lemma IdsReplace(q: seq<Op>, op: Op)
    requires q != [] && op.id == q[0].id
    ensures Ids(q[0 := op]) == Ids(q)
  {
    assert forall j :: 0 <= j < |q| ==> Ids(q[0 := op])[j] == Ids(q)[j];
  }

  lemma TruthfulStill(requests: seq<Request>, m0: seq<Move>, m: seq<Move>, completed: seq<Completion>, id: nat)
    requires Truthful(requests, m0, completed) && OthersSame(m0, m, id)
    requires forall i :: 0 <= i < |completed| ==> completed[i].id != id
    ensures Truthful(requests, m, completed)
  {
    hide Total;
  }

  lemma TruthfulMore(requests: seq<Request>, m: seq<Move>, c0: seq<Completion>, c: seq<Completion>, blocked: bool, id: nat)
    requires Truthful(requests, m, c0) && id < |requests| && 0 <= Total(m, id) <= requests[id].nbyte
    requires blocked ==> c == c0
    requires !blocked ==> exists ret :: c == c0 + [Completion(id, ret)] && (ret == Total(m, id) || ret == -1)
    ensures Truthful(requests, m, c)
  {
    hide Total;
  }

  /** The books after the first operation of a queue was tried. */
  function Tried(q: seq<Op>, blocked: bool, op: Op): seq<Op>
    requires q != []
  {
    if blocked then q[0 := op] else q[1..]
  }

  lemma TriedLedger(requests: seq<Request>, m0: seq<Move>, m: seq<Move>, c0: seq<Completion>, c: seq<Completion>, q: seq<Op>,
                    fd: int, dir: Direction, blocked: bool, op: Op)
    requires q != [] && Ledger(requests, m0, c0, q, fd, dir) && Truthful(requests, m0, c0) && OthersSame(m0, m, q[0].id)
    requires op.id == q[0].id && op.fildes == q[0].fildes && op.dir == q[0].dir
    requires blocked ==> OnTrack(requests, m, op) && c == c0
    requires !blocked ==> exists ret :: c == c0 + [Completion(op.id, ret)]
    ensures Ledger(requests, m, c, Tried(q, blocked, op), fd, dir)
  {
    hide Submitted, Finished, Ids, Total, Truthful;
    FrontIsOpen(requests, m0, c0, q, fd, dir);
    RestOnTrack(requests, m0, m, q, fd, dir);
    if blocked {
      IdsReplace(q, op);
      assert q[0 := op] == [op] + q[1..];
    } else {
      var ret :| c == c0 + [Completion(op.id, ret)];
      FrontFinished(requests, m, c0, q, fd, dir, Completion(op.id, ret));
    }
  }

  lemma RestOnTrack(requests: seq<Request>, m0: seq<Move>, m: seq<Move>, q: seq<Op>, fd: int, dir: Direction)
    requires q != [] && AllOnTrack(requests, m0, q, fd, dir) && OthersSame(m0, m, q[0].id)
    requires forall j :: 1 <= j < |q| ==> q[j].id != q[0].id
    ensures AllOnTrack(requests, m, q[1..], fd, dir)
  {
    hide Total;
    assert forall j :: 0 <= j < |q[1..]| ==> q[1..][j] == q[j + 1];
  }

  lemma TriedOther(requests: seq<Request>, m0: seq<Move>, m: seq<Move>, c0: seq<Completion>, c: seq<Completion>, q: seq<Op>,
                   fd: int, dir: Direction, blocked: bool, id: nat)
    requires Ledger(requests, m0, c0, q, fd, dir) && OthersSame(m0, m, id) && id < |requests|
    requires !(requests[id].fildes == fd && requests[id].dir == dir)
    requires blocked ==> c == c0
    requires !blocked ==> exists ret :: c == c0 + [Completion(id, ret)]
    ensures Ledger(requests, m, c, q, fd, dir)
  {
    NotOfThisQueue(requests, m0, c0, q, fd, dir, id);
    LedgerOther(requests, m0, m, c0, q, fd, dir, id);
    hide Ledger;
    if !blocked {
      var ret :| c == c0 + [Completion(id, ret)];
      LedgerFinished(requests, m, c0, q, fd, dir, Completion(id, ret));
    }
  }

  /** Only the queue of `fd` in one direction, and whether `fd` is blocked or ready in it, may differ. */
  ghost predicate OnlyAbout(r0: Side, w0: Side, rs: Side, ws: Side, fd: int, dir: Direction) {
    forall f, d :: !(f == fd && d == dir) ==>
      && QueueOf(SideOf(rs, ws, d), f) == QueueOf(SideOf(r0, w0, d), f)
      && (f in SideOf(rs, ws, d).blocked <==> f in SideOf(r0, w0, d).blocked)
      && (f in SideOf(rs, ws, d).ready <==> f in SideOf(r0, w0, d).ready)
  }

  lemma QueueChanged(r0: Side, w0: Side, rs: Side, ws: Side, fd: int, dir: Direction, q: seq<Op>)
    requires rs == (if dir == Read then r0.(queues := r0.queues[fd := q]) else r0)
    requires ws == (if dir == Write then w0.(queues := w0.queues[fd := q]) else w0)
    ensures OnlyAbout(r0, w0, rs, ws, fd, dir) && QueueOf(SideOf(rs, ws, dir), fd) == q
  {
  }

  lemma OnlyAboutSame(rs: Side, ws: Side, fd: int, dir: Direction)
    ensures OnlyAbout(rs, ws, rs, ws, fd, dir)
  {
  }

  lemma OnlyAboutTwice(r0: Side, w0: Side, r1: Side, w1: Side, rs: Side, ws: Side, fd: int, dir: Direction)
    requires OnlyAbout(r0, w0, r1, w1, fd, dir) && OnlyAbout(r1, w1, rs, ws, fd, dir)
    ensures OnlyAbout(r0, w0, rs, ws, fd, dir)
  {
    forall f, d | !(f == fd && d == dir)
      ensures QueueOf(SideOf(rs, ws, d), f) == QueueOf(SideOf(r0, w0, d), f)
      ensures f in SideOf(rs, ws, d).blocked <==> f in SideOf(r0, w0, d).blocked
      ensures f in SideOf(rs, ws, d).ready <==> f in SideOf(r0, w0, d).ready
    {
      assert QueueOf(SideOf(r1, w1, d), f) == QueueOf(SideOf(r0, w0, d), f);
    }
  }

  lemma FrontFacts(requests: seq<Request>, moved: seq<Move>, completed: seq<Completion>, rs: Side, ws: Side, fd: int, dir: Direction)
    requires Books(requests, moved, completed, rs, ws) && QueueOf(SideOf(rs, ws, dir), fd) != []
    ensures var op := QueueOf(SideOf(rs, ws, dir), fd)[0];
      && GapFree(requests, moved) && OnTrack(requests, moved, op) && op.id < |requests| && requests[op.id].nbyte < SIZE_MAX
      && op.fildes == fd && op.dir == dir && requests[op.id].fildes == fd && requests[op.id].dir == dir
  {
    var q := QueueOf(SideOf(rs, ws, dir), fd);
    assert Ledger(requests, moved, completed, q, fd, dir);
    assert q[0].fildes == fd && q[0].dir == dir && OnTrack(requests, moved, q[0]);
    hide GapFree, Total;
  }

  lemma BooksTried(requests: seq<Request>, m0: seq<Move>, m: seq<Move>, c0: seq<Completion>, c: seq<Completion>,
                   r0: Side, w0: Side, rs: Side, ws: Side, fd: int, dir: Direction, blocked: bool, op: Op)
    requires Books(requests, m0, c0, r0, w0) && GapFree(requests, m) && QueueOf(SideOf(r0, w0, dir), fd) != []
    requires var q := QueueOf(SideOf(r0, w0, dir), fd);
      && OthersSame(m0, m, q[0].id) && op.id == q[0].id && op.fildes == q[0].fildes && op.dir == q[0].dir
      && QueueOf(SideOf(rs, ws, dir), fd) == Tried(q, blocked, op)
      && op.id < |requests| && 0 <= Total(m, op.id) <= requests[op.id].nbyte
    requires OnlyAbout(r0, w0, rs, ws, fd, dir)
    requires blocked ==> OnTrack(requests, m, op) && c == c0
    requires !blocked ==> exists ret :: c == c0 + [Completion(op.id, ret)] && (ret == Total(m, op.id) || ret == -1)
    ensures Books(requests, m, c, rs, ws)
  {
    hide GapFree, OnTrack, Total, OthersSame, Ledger, Truthful;
    var q := QueueOf(SideOf(r0, w0, dir), fd);
    assert Ledger(requests, m0, c0, q, fd, dir);
    FrontFacts(requests, m0, c0, r0, w0, fd, dir);
    FrontIsOpen(requests, m0, c0, q, fd, dir);
    TruthfulStill(requests, m0, m, c0, op.id);
    TruthfulMore(requests, m, c0, c, blocked, op.id);
    forall f, d ensures Ledger(requests, m, c, QueueOf(SideOf(rs, ws, d), f), f, d) {
      assert Ledger(requests, m0, c0, QueueOf(SideOf(r0, w0, d), f), f, d);
      if f == fd && d == dir {
        TriedLedger(requests, m0, m, c0, c, q, fd, dir, blocked, op);
      } else {
        TriedOther(requests, m0, m, c0, c, QueueOf(SideOf(r0, w0, d), f), f, d, blocked, op.id);
      }
    }
  }

  lemma BooksSameQueues(requests: seq<Request>, moved: seq<Move>, completed: seq<Completion>, r0: Side, w0: Side, rs: Side, ws: Side)
    requires Books(requests, moved, completed, r0, w0)
    requires forall f, d :: QueueOf(SideOf(rs, ws, d), f) == QueueOf(SideOf(r0, w0, d), f)
    ensures Books(requests, moved, completed, rs, ws)
  {
    hide GapFree, Truthful, Ledger;
    forall f, d ensures Ledger(requests, moved, completed, QueueOf(SideOf(rs, ws, d), f), f, d) {
      assert Ledger(requests, moved, completed, QueueOf(SideOf(r0, w0, d), f), f, d);
    }
  }

  function WithQueue(rs: Side, ws: Side, dir: Direction, fd: int, q: seq<Op>): (Side, Side) {
    if dir == Read then (rs.(queues := rs.queues[fd := q]), ws) else (rs, ws.(queues := ws.queues[fd := q]))
  }

  lemma {:induction false} TotalOfNew(requests: seq<Request>, moved: seq<Move>, id: nat)
    requires forall i :: 0 <= i < |moved| ==> moved[i].id != id
    ensures Total(moved, id) == 0
  {
    if moved != [] { TotalOfNew(requests, moved[..|moved| - 1], id); }
  }

  /** The books with a new operation at the end of its queue. */
  lemma NewOnTrack(requests: seq<Request>, moved: seq<Move>, completed: seq<Completion>, r: Request, op: Op)
    requires GapFree(requests, moved) && Truthful(requests, moved, completed)
    requires op == Op(|requests|, r.fildes, r.dir, r.buf, r.nbyte, 0)
    ensures GapFree(requests + [r], moved) && Truthful(requests + [r], moved, completed) && OnTrack(requests + [r], moved, op)
    ensures forall i :: 0 <= i < |completed| ==> completed[i].id < |requests|
  {
    TotalOfNew(requests, moved, op.id);
    hide Total;
  }

  lemma BooksSubmit(requests: seq<Request>, moved: seq<Move>, completed: seq<Completion>, rs: Side, ws: Side, r: Request, op: Op)
    requires Books(requests, moved, completed, rs, ws) && r.nbyte < SIZE_MAX
    requires op == Op(|requests|, r.fildes, r.dir, r.buf, r.nbyte, 0)
    ensures var (rs2, ws2) := WithQueue(rs, ws, r.dir, r.fildes, QueueOf(SideOf(rs, ws, r.dir), r.fildes) + [op]);
      Books(requests + [r], moved, completed, rs2, ws2)
  {
    hide GapFree, Total, Truthful, OnTrack, Ledger;
    var reqs := requests + [r];
    var (rs2, ws2) := WithQueue(rs, ws, r.dir, r.fildes, QueueOf(SideOf(rs, ws, r.dir), r.fildes) + [op]);
    NewOnTrack(requests, moved, completed, r, op);
    forall f, d ensures Ledger(reqs, moved, completed, QueueOf(SideOf(rs2, ws2, d), f), f, d) {
      var q := QueueOf(SideOf(rs, ws, d), f);
      assert Ledger(requests, moved, completed, q, f, d);
      LedgerSubmit(requests, moved, completed, q, f, d, r, op);
    }
  }

  lemma LedgerSubmit(requests: seq<Request>, moved: seq<Move>, completed: seq<Completion>, q: seq<Op>, fd: int, dir: Direction, r: Request, op: Op)
    requires Ledger(requests, moved, completed, q, fd, dir) && op.id == |requests| && op.fildes == r.fildes && op.dir == r.dir
    requires OnTrack(requests + [r], moved, op) && forall i :: 0 <= i < |completed| ==> completed[i].id < |requests|
    ensures Ledger(requests + [r], moved, completed, if r.fildes == fd && r.dir == dir then q + [op] else q, fd, dir)
  {
    hide Total, Submitted, Finished, Ids;
    SubmittedAppend(requests, r, fd, dir);
    FinishedSame(requests, [r], completed, fd, dir);
    IdsAppend(q, op);
    forall i | 0 <= i < |q| ensures OnTrack(requests + [r], moved, q[i]) {
      OnTrackMore(requests, moved, q[i], r);
    }
    hide OnTrack;
  }

  lemma OnTrackMore(requests: seq<Request>, moved: seq<Move>, op: Op, r: Request)
    requires OnTrack(requests, moved, op)
    ensures OnTrack(requests + [r], moved, op)
  {
    assert (requests + [r])[op.id] == requests[op.id];
  }

  lemma IdsAppend(q: seq<Op>, op: Op)
    ensures Ids(q + [op]) == Ids(q) + [op.id]
  {
    assert (q + [op])[..|q|] == q;
  }

  /** Flags of a step that concerns one descriptor and direction. */
  lemma FlagsAfter(r0: Side, w0: Side, rs: Side, ws: Side, fd: int, dir: Direction)
    requires Flags(r0) && Flags(w0)
    requires OnlyAbout(r0, w0, rs, ws, fd, dir)
    requires fd in SideOf(rs, ws, dir).blocked <==> QueueOf(SideOf(rs, ws, dir), fd) != []
    requires fd in SideOf(rs, ws, dir).ready ==> QueueOf(SideOf(rs, ws, dir), fd) == []
    ensures Flags(rs) && Flags(ws)
  {
    forall f ensures (f in rs.blocked <==> QueueOf(rs, f) != []) && (f in rs.ready ==> QueueOf(rs, f) == []) {
      assert SideOf(rs, ws, Read) == rs && SideOf(r0, w0, Read) == r0;
      assert !(f == fd && dir == Read) ==> QueueOf(SideOf(rs, ws, Read), f) == QueueOf(SideOf(r0, w0, Read), f);
    }
    forall f ensures (f in ws.blocked <==> QueueOf(ws, f) != []) && (f in ws.ready ==> QueueOf(ws, f) == []) {
      assert SideOf(rs, ws, Write) == ws && SideOf(r0, w0, Write) == w0;
      assert !(f == fd && dir == Write) ==> QueueOf(SideOf(rs, ws, Write), f) == QueueOf(SideOf(r0, w0, Write), f);
    }
  }

  /** System calls for one operation; they follow each other only for a write that the kernel took part of. */
  ghost predicate Tries(op: Op, calls: seq<Call>) {
    && calls != [] && (op.dir == Read ==> |calls| == 1)
    && (forall i :: 0 <= i < |calls| ==> calls[i].id == op.id && calls[i].fildes == op.fildes && calls[i].dir == op.dir)
    && forall i :: 0 <= i < |calls| - 1 ==> Partial(calls[i].answer)
  }

  predicate Partial(answer: Answer) {
    answer.Bytes? && answer.n > 0
  }

  /** The result, by the last answer: an error, or all that was transferred; a write that ends well
      has sent everything unless the kernel took nothing. */
  ghost predicate Outcome(last: Answer, dir: Direction, total: int, nbyte: nat, ret: int) {
    && (last == Failed ==> ret == -1)
    && (last.Bytes? ==> ret == total && (dir == Write && last.n > 0 ==> total == nbyte))
    && last != TryAgain
  }

  class Scheduler {
    var readSide: Side
    var writeSide: Side
    var interest: map<int, Direction>   // what epoll watches: each descriptor in the direction it was added with
    var popped: nat     // operations taken from the I/O queue so far; numbers their futures
    ghost var requests: seq<Request>
    ghost var moved: seq<Move>
    ghost var completed: seq<Completion>
    ghost var calls: seq<Call>          // all system calls so far

    ghost predicate Valid()
      reads this
    {
      popped == |requests| && Books(requests, moved, completed, readSide, writeSide) && Flags(readSide) && Flags(writeSide)
    }

    constructor ()
      ensures Valid() && requests == [] && completed == [] && calls == [] && readSide == EMPTY && writeSide == EMPTY && interest == map[]
    {
      hide Books, Flags;
      readSide, writeSide, interest := EMPTY, EMPTY, map[];
      popped := 0;
      requests, moved, completed, calls := [], [], [], [];
      new;
      EmptyBooks();
    }

    /** One system call and the bookkeeping that follows it, whatever it answered. */
    method Attempt(op0: Op) returns (op: Op, res: int, again: bool, ghost answered: Answer)
      requires GapFree(requests, moved) && OnTrack(requests, moved, op0) && requests[op0.id].nbyte < SIZE_MAX
      modifies this`moved, this`calls
      ensures op.id == op0.id && op.fildes == op0.fildes && op.dir == op0.dir && GapFree(requests, moved)
      ensures calls == old(calls) + [Call(op0.id, op0.fildes, op0.dir, answered)]
      ensures OthersSame(old(moved), moved, op0.id) && -1 <= res
      ensures res == (if answered.Bytes? then answered.n else -1) && again == (answered == TryAgain)
      ensures res >= 0 ==> OnTrack(requests, moved, op) && op.nbyte == op0.nbyte - res && |moved| == |old(moved)| + 1
      ensures res < 0 ==> moved == old(moved) && op == op0.(nbyte := Size(op0.nbyte + 1), res := op0.res - 1, buf := op0.buf - 1)
    {
      var answer := Syscall(op0.nbyte);
      answered := answer;
      calls := calls + [Call(op0.id, op0.fildes, op0.dir, answer)];
      again := answer == TryAgain;
      res := if answer.Bytes? then answer.n else -1;
      op := op0.(nbyte := Size(op0.nbyte - res), res := op0.res + res, buf := op0.buf + res);
      if answer.Bytes? {
        MoveOnTrack(requests, moved, op0, answer.n);
        moved := moved + [Move(op0.id, op0.buf, answer.n)];
      }
    }

    /** Try an operation: a read once, a write until all is sent or the kernel takes no more.
        True when the descriptor would block; otherwise the future has its result. */
    method PerformIoUntilBlock(op0: Op) returns (blocked: bool, op: Op, ghost got: seq<Call>)
      requires GapFree(requests, moved) && OnTrack(requests, moved, op0) && requests[op0.id].nbyte < SIZE_MAX
      modifies this`moved, this`completed, this`calls
      ensures GapFree(requests, moved) && op.id == op0.id && op.fildes == op0.fildes && op.dir == op0.dir
      ensures calls == old(calls) + got
      ensures OthersSame(old(moved), moved, op0.id) && 0 <= Total(moved, op0.id) <= requests[op0.id].nbyte
      ensures blocked ==> OnTrack(requests, moved, op) && completed == old(completed)
      ensures Tries(op0, got) && blocked == (got[|got| - 1].answer == TryAgain)
      ensures !blocked ==> exists ret ::
        && completed == old(completed) + [Completion(op0.id, ret)]
        && Outcome(got[|got| - 1].answer, op0.dir, Total(moved, op0.id), requests[op0.id].nbyte, ret)
    {
      hide GapFree, OnTrack, OthersSame;
      op := op0;
      got := [];
      OthersReflexive(moved, op0.id);
      var res, again;
      ghost var last, answered := op, Failed;
      while true
        invariant GapFree(requests, moved) && OnTrack(requests, moved, op)
        invariant op.id == op0.id && op.fildes == op0.fildes && op.dir == op0.dir
        invariant OthersSame(old(moved), moved, op0.id)
        invariant completed == old(completed) && (op0.dir == Read ==> got == []) && calls == old(calls) + got
        invariant forall i :: 0 <= i < |got| ==> got[i].id == op0.id && got[i].fildes == op0.fildes && got[i].dir == op0.dir
        invariant forall i :: 0 <= i < |got| ==> Partial(got[i].answer)
        decreases op.nbyte
      {
        last := op;
        ghost var m := moved;
        op, res, again, answered := Attempt(op);
        got := got + [Call(op0.id, op0.fildes, op0.dir, answered)];
        OthersTransitive(old(moved), m, moved, op0.id);
        if !(op.nbyte > 0 && res > 0 && op.dir != Read) {
          break;
        }
      }
      OnTrackFacts(requests, moved, if res < 0 then last else op);
      if res < 0 {
        op := op.(nbyte := Size(op.nbyte + res), buf := op.buf - res);
        if again {
          op := op.(res := op.res - res);
          assert op == last;
          return true, op, got;
        } else {
          op := op.(res := -1);
        }
      }
      completed := completed + [Completion(op.id, op.res)];
      assert Outcome(answered, op0.dir, Total(moved, op0.id), requests[op0.id].nbyte, op.res);
      blocked := false;
    }

    /** Operations that wait for a descriptor. */
    ghost function Queue(dir: Direction, fd: int): seq<Op>
      reads this
    {
      QueueOf(SideOf(readSide, writeSide, dir), fd)
    }

    method Put(dir: Direction, side: Side)
      modifies this`readSide, this`writeSide
      ensures readSide == (if dir == Read then side else old(readSide)) && writeSide == (if dir == Write then side else old(writeSide))
    {
      if dir == Read { readSide := side; } else { writeSide := side; }
    }

    /** Try the operation at the front of a queue; it leaves the queue unless it would block. */
    method TryFront(dir: Direction, fd: int) returns (blocked: bool, ghost got: seq<Call>)
      requires Books(requests, moved, completed, readSide, writeSide) && Queue(dir, fd) != []
      modifies this`moved, this`completed, this`readSide, this`writeSide, this`calls
      ensures Books(requests, moved, completed, readSide, writeSide)
      ensures OnlyAbout(old(readSide), old(writeSide), readSide, writeSide, fd, dir)
      ensures calls == old(calls) + got && OneTry(old(Queue(dir, fd)), Queue(dir, fd), got, blocked) && AllAbout(got, fd, dir)
      ensures AllFor(got, old(Queue(dir, fd))[0].id) && Below(got, |requests|)
      ensures |Queue(dir, fd)| == |old(Queue(dir, fd))| - (if blocked then 0 else 1)
      ensures |completed| == |old(completed)| + (if blocked then 0 else 1)
      ensures SideOf(readSide, writeSide, dir).blocked == old(SideOf(readSide, writeSide, dir)).blocked
      ensures SideOf(readSide, writeSide, dir).ready == old(SideOf(readSide, writeSide, dir)).ready
    {
      hide Books, OnTrack, GapFree, OthersSame, OnlyAbout, Total;
      ghost var m0, c0, r0, w0 := moved, completed, readSide, writeSide;
      var side := SideOf(readSide, writeSide, dir);
      var q := QueueOf(side, fd);
      FrontFacts(requests, moved, completed, readSide, writeSide, fd, dir);
      var op;
      blocked, op, got := PerformIoUntilBlock(q[0]);
      assert |completed| == |c0| + (if blocked then 0 else 1);
      assert OneTry(q, Tried(q, blocked, op), got, blocked) && AllAbout(got, fd, dir);
      assert |Tried(q, blocked, op)| == |q| - (if blocked then 0 else 1);
      hide Tries, OneTry, AllAbout;
      Put(dir, side.(queues := side.queues[fd := if blocked then q[0 := op] else q[1..]]));
      QueueChanged(r0, w0, readSide, writeSide, fd, dir, Tried(q, blocked, op));
      BooksTried(requests, m0, moved, c0, completed, r0, w0, readSide, writeSide, fd, dir, blocked, op);
    }

    /** The descriptor is ready: retry its operations in order until one would block; when none is
        left the descriptor is no longer blocked and is to be taken out of epoll. */
    method HandleEvent(dir: Direction, fd: int) returns (ghost got: seq<Call>)
      requires Valid()
      modifies this`moved, this`completed, this`readSide, this`writeSide, this`calls
      ensures Valid() && OnlyAbout(old(readSide), old(writeSide), readSide, writeSide, fd, dir)
      ensures calls == old(calls) + got && AllAbout(got, fd, dir) && Served(old(Queue(dir, fd)), Queue(dir, fd), got, true, [])
      ensures fd in SideOf(readSide, writeSide, dir).ready <==> Queue(dir, fd) == []
      ensures Below(got, |requests|)
      ensures |completed| - |old(completed)| == |old(Queue(dir, fd))| - |Queue(dir, fd)|
    {
      hide Books, OnlyAbout, OneTry, AllAbout, Partly, Served;
      got := [];
      PartlyNothing(Queue(dir, fd), fd, dir);
      var blocked := false;
      OnlyAboutSame(readSide, writeSide, fd, dir);
      assert fd in SideOf(readSide, writeSide, dir).blocked <==> Queue(dir, fd) != [];
      assert fd in SideOf(readSide, writeSide, dir).ready ==> Queue(dir, fd) == [];
      hide Flags;
      while QueueOf(SideOf(readSide, writeSide, dir), fd) != [] && !blocked
        invariant Books(requests, moved, completed, readSide, writeSide)
        invariant OnlyAbout(old(readSide), old(writeSide), readSide, writeSide, fd, dir)
        invariant SideOf(readSide, writeSide, dir).blocked == old(SideOf(readSide, writeSide, dir)).blocked
        invariant Queue(dir, fd) != [] ==> old(Queue(dir, fd)) != []
        invariant SideOf(readSide, writeSide, dir).ready == old(SideOf(readSide, writeSide, dir)).ready
        invariant |completed| - |old(completed)| == |old(Queue(dir, fd))| - |Queue(dir, fd)|
        invariant calls == old(calls) + got && Below(got, |requests|) && AllAbout(got, fd, dir) && Partly(old(Queue(dir, fd)), Queue(dir, fd), got, blocked)
        decreases |Queue(dir, fd)|, !blocked
      {
        ghost var r1, w1, q := readSide, writeSide, Queue(dir, fd);
        ghost var more;
        blocked, more := TryFront(dir, fd);
        PartlyMore(old(Queue(dir, fd)), q, Queue(dir, fd), got, more, blocked, fd, dir);
        got := got + more;
        OnlyAboutTwice(old(readSide), old(writeSide), r1, w1, readSide, writeSide, fd, dir);
      }
      PartlyServed(old(Queue(dir, fd)), Queue(dir, fd), got, blocked);
      var side := SideOf(readSide, writeSide, dir);
      if QueueOf(side, fd) == [] {
        SetFlag(dir, fd, false);
      }
      FlagsAfter(old(readSide), old(writeSide), readSide, writeSide, fd, dir);
    }

    /** Move a descriptor between the blocked and the ready ones. */
    method SetFlag(dir: Direction, fd: int, blocks: bool)
      requires Books(requests, moved, completed, readSide, writeSide)
      modifies this`readSide, this`writeSide
      ensures Books(requests, moved, completed, readSide, writeSide)
      ensures fd in SideOf(readSide, writeSide, dir).blocked <==> blocks
      ensures fd in SideOf(readSide, writeSide, dir).ready <==> !blocks
      ensures Queue(dir, fd) == old(Queue(dir, fd))
      ensures forall r0, w0 :: OnlyAbout(r0, w0, old(readSide), old(writeSide), fd, dir) ==> OnlyAbout(r0, w0, readSide, writeSide, fd, dir)
    {
      hide Books;
      ghost var r1, w1 := readSide, writeSide;
      var side := SideOf(readSide, writeSide, dir);
      if blocks {
        Put(dir, side.(ready := side.ready - {fd}, blocked := side.blocked + {fd}));
      } else {
        Put(dir, side.(blocked := side.blocked - {fd}, ready := side.ready + {fd}));
      }
      BooksSameQueues(requests, moved, completed, r1, w1, readSide, writeSide);
      assert OnlyAbout(r1, w1, readSide, writeSide, fd, dir);
      forall r0, w0 | OnlyAbout(r0, w0, r1, w1, fd, dir) ensures OnlyAbout(r0, w0, readSide, writeSide, fd, dir) {
        OnlyAboutTwice(r0, w0, r1, w1, readSide, writeSide, fd, dir);
      }
    }

    /** Watching a descriptor that is watched already, in whichever direction, fails without a trace. */
    method EpollAdd(fd: int, dir: Direction)
      modifies this`interest
      ensures fd in interest && forall f :: f != fd || f in old(interest) ==> (f in interest <==> f in old(interest))
      ensures forall f :: f in old(interest) ==> f in interest && interest[f] == old(interest)[f]
      ensures fd !in old(interest) ==> interest[fd] == dir
    {
      if fd !in interest {
        interest := interest[fd := dir];
      }
    }

    /** A new operation: behind those that wait for the same descriptor, if any; else it is tried
        at once and waits only if it would block; then epoll is to watch the descriptor. */
    method Dispatch(r: Request) returns (ghost got: seq<Call>)
      requires Valid() && r.nbyte < SIZE_MAX
      modifies this
      ensures Valid() && requests == old(requests) + [r]
      ensures OnlyAbout(old(readSide), old(writeSide), readSide, writeSide, r.fildes, r.dir)
      ensures calls == old(calls) + got && AllAbout(got, r.fildes, r.dir)
      ensures Served(old(Queue(r.dir, r.fildes)), Queue(r.dir, r.fildes), got, false, [|old(requests)|]) && AllFor(got, |old(requests)|)
      ensures r.fildes in SideOf(readSide, writeSide, r.dir).ready <==>
        r.fildes in old(SideOf(readSide, writeSide, r.dir)).ready && Queue(r.dir, r.fildes) == []
      ensures old(Queue(r.dir, r.fildes)) != [] ==> moved == old(moved) && completed == old(completed)
      ensures old(Queue(r.dir, r.fildes)) == [] ==> |completed| == |old(completed)| + 1 - |Queue(r.dir, r.fildes)|
      ensures forall f :: f in old(interest) ==> f in interest && interest[f] == old(interest)[f]
      ensures forall f :: f in interest && f !in old(interest) ==> f == r.fildes && interest[f] == r.dir && Queue(r.dir, f) != []
      ensures old(Queue(r.dir, r.fildes)) == [] && Queue(r.dir, r.fildes) != [] ==> r.fildes in interest
    {
      hide Books, OnlyAbout, OneTry, Served;
      var fd, dir := r.fildes, r.dir;
      got := [];
      assert fd in SideOf(readSide, writeSide, dir).blocked <==> Queue(dir, fd) != [];
      assert fd in SideOf(readSide, writeSide, dir).ready ==> Queue(dir, fd) == [];
      hide Flags;
      Enqueue(r);
      ghost var q := Queue(dir, fd);
      ServedLater(old(Queue(dir, fd)), q, |old(requests)|);
      if fd !in SideOf(readSide, writeSide, dir).blocked {
        ghost var r1, w1 := readSide, writeSide;
        var blocked;
        blocked, got := TryFront(dir, fd);
        ServedAtOnce(q, Queue(dir, fd), got, blocked);
        OnlyAboutTwice(old(readSide), old(writeSide), r1, w1, readSide, writeSide, fd, dir);
        if blocked {
          SetFlag(dir, fd, true);
          EpollAdd(fd, dir);
        }
      }
      FlagsAfter(old(readSide), old(writeSide), readSide, writeSide, fd, dir);
    }

    method Enqueue(r: Request)
      requires popped == |requests| && Books(requests, moved, completed, readSide, writeSide) && r.nbyte < SIZE_MAX
      modifies this`popped, this`requests, this`readSide, this`writeSide
      ensures popped == |requests| && requests == old(requests) + [r] && Books(requests, moved, completed, readSide, writeSide)
      ensures Queue(r.dir, r.fildes) == old(Queue(r.dir, r.fildes)) + [Op(|old(requests)|, r.fildes, r.dir, r.buf, r.nbyte, 0)]
      ensures SideOf(readSide, writeSide, r.dir).blocked == old(SideOf(readSide, writeSide, r.dir)).blocked
      ensures SideOf(readSide, writeSide, r.dir).ready == old(SideOf(readSide, writeSide, r.dir)).ready
      ensures OnlyAbout(old(readSide), old(writeSide), readSide, writeSide, r.fildes, r.dir)
    {
      hide Books;
      var side := SideOf(readSide, writeSide, r.dir);
      var q := QueueOf(side, r.fildes);
      var op := Op(popped, r.fildes, r.dir, r.buf, r.nbyte, 0);
      BooksSubmit(requests, moved, completed, readSide, writeSide, r, op);
      popped := popped + 1;
      requests := requests + [r];
      Put(r.dir, side.(queues := side.queues[r.fildes := q + [op]]));
    }

    /** The descriptors that became free in a direction are taken out of epoll, and with that no
        longer watched in any. */
    method ClearReady() returns (freeReads: set<int>, freeWrites: set<int>)
      requires Valid()
      modifies this`readSide, this`writeSide, this`interest
      ensures Valid() && freeReads == old(readSide.ready) && freeWrites == old(writeSide.ready)
      ensures interest == old(interest) - (freeReads + freeWrites)
      ensures readSide == old(readSide).(ready := {}) && writeSide == old(writeSide).(ready := {})
    {
      hide Books;
      freeReads, freeWrites := readSide.ready, writeSide.ready;
      interest := interest - freeReads - freeWrites;
      ghost var r0, w0 := readSide, writeSide;
      readSide, writeSide := readSide.(ready := {}), writeSide.(ready := {});
      BooksSameQueues(requests, moved, completed, r0, w0, readSide, writeSide);
    }

    ghost function Now(): Snapshot
      reads this
    {
      Snapshot(requests, calls, readSide, writeSide, interest)
    }

    /** Between two turns: no descriptor is left to be taken out of epoll. */
    ghost predicate Resting()
      reads this
    {
      Valid() && readSide.ready == {} && writeSide.ready == {}
    }

    /** What epoll reports of one descriptor. */
    method OneEvent(e: Event)
      requires Valid()
      modifies this`moved, this`completed, this`readSide, this`writeSide, this`calls
      ensures Valid() && forall fd, dir :: Progress(old(Now()), Now(), Reports(e, fd, dir), fd, dir)
      ensures old(calls) <= calls && Below(calls[|old(calls)|..], |requests|)
    {
      hide Valid, Progress, OnlyAbout, AllAbout, Served;
      ghost var s, got := Now(), [];
      NoProgress(this);
      if e.readable {
        got := HandleEvent(Read, e.fd);
        EventProgress(s, Now(), got, e.fd, Read);
      }
      ghost var t := Now();
      NoProgress(this);
      if e.writable {
        got := HandleEvent(Write, e.fd);
        EventProgress(t, Now(), got, e.fd, Write);
      }
      forall fd, dir ensures Progress(s, Now(), Reports(e, fd, dir), fd, dir) {
        ProgressTwice(s, t, Now(), e.readable && Is(e.fd, Read, fd, dir), e.writable && Is(e.fd, Write, fd, dir), fd, dir);
      }
    }

    /** One turn of the thread's loop: what epoll reports, then, if the queue was signalled,
        everything in it, then the descriptors that became free. */
    method Turn(events: seq<Event>, checkQueue: bool, queue: seq<Request>) returns (freeReads: set<int>, freeWrites: set<int>)
      requires Resting() && forall i :: 0 <= i < |queue| ==> queue[i].nbyte < SIZE_MAX
      modifies this
      ensures Resting() && requests == old(requests) + (if checkQueue then queue else [])
      ensures forall fd, dir :: TurnAbout(old(Now()), Now(), events, freeReads, freeWrites, fd, dir)
      ensures old(calls) <= calls && RetriesFirst(calls[|old(calls)|..], |old(requests)|)
      ensures WatchedAfter(old(Now()), Now(), events)
    {
      hide Valid, Progress, TurnAbout, Reported, RetriesFirst, WatchedAfter, Watched, Registered;
      ghost var s := Now();
      NoProgress(this);
      assert forall fd, dir :: !Reported(events[..0], fd, dir) by { NoneReported(events[..0]); }
      var i := 0;
      while i < |events|
        invariant 0 <= i <= |events| && Valid() && requests == s.requests && interest == s.interest
        invariant s.calls <= calls && Below(calls[|s.calls|..], |requests|)
        invariant forall fd, dir :: Progress(s, Now(), Reported(events[..i], fd, dir), fd, dir)
      {
        ghost var t := Now();
        OneEvent(events[i]);
        assert calls[|s.calls|..] == t.calls[|s.calls|..] + calls[|t.calls|..];
        i := i + 1;
        forall fd, dir ensures Progress(s, Now(), Reported(events[..i], fd, dir), fd, dir) {
          assert events[..i] == events[..i - 1] + [events[i - 1]];
          ReportedAppend(events[..i - 1], events[i - 1], fd, dir);
          ProgressTwice(s, t, Now(), Reported(events[..i - 1], fd, dir), Reports(events[i - 1], fd, dir), fd, dir);
        }
      }
      assert events[..i] == events;
      RetriesOnly(calls[|s.calls|..], |requests|);
      if Watched(s) {
        RegisteredStart(s, Now(), events);
      }
      if checkQueue {
        DispatchAll(queue, s, events);
      }
      ghost var t := Now();
      freeReads, freeWrites := ClearReady();
      forall fd, dir ensures TurnAbout(s, Now(), events, freeReads, freeWrites, fd, dir) {
        Cleared(s, t, Now(), events, freeReads, freeWrites, fd, dir);
      }
      if Watched(s) {
        TurnWatched(s, t, Now(), events, freeReads, freeWrites);
      } else {
        NotWatched(s, Now(), events);
      }
    }

    /** Everything in the queue. */
    method DispatchAll(queue: seq<Request>, ghost s: Snapshot, ghost events: seq<Event>)
      requires Valid() && forall i :: 0 <= i < |queue| ==> queue[i].nbyte < SIZE_MAX
      requires forall fd, dir :: Progress(s, Now(), Reported(events, fd, dir), fd, dir)
      requires s.calls <= calls && Below(calls[|s.calls|..], |requests|) && RetriesFirst(calls[|s.calls|..], |s.requests|)
      modifies this
      ensures Valid() && requests == old(requests) + queue
      ensures s.calls <= calls && RetriesFirst(calls[|s.calls|..], |s.requests|)
      ensures old(Registered(s, Now())) ==> Registered(s, Now())
      ensures forall fd, dir :: Progress(s, Now(), Reported(events, fd, dir), fd, dir)
    {
      hide Valid, Progress, OnlyAbout, AllAbout, Served, Reported, RetriesFirst, Below, AllFor, Registered;
      var j := 0;
      while j < |queue|
        invariant 0 <= j <= |queue| && Valid() && requests == old(requests) + queue[..j]
        invariant s.calls <= calls && Below(calls[|s.calls|..], |requests|) && RetriesFirst(calls[|s.calls|..], |s.requests|)
        invariant old(Registered(s, Now())) ==> Registered(s, Now())
        invariant forall fd, dir :: Progress(s, Now(), Reported(events, fd, dir), fd, dir)
      {
        ghost var t := Now();
        NoProgress(this);
        ghost var got := Dispatch(queue[j]);
        DispatchProgress(t, Now(), got, queue[j]);
        if Registered(s, t) {
          RegisteredStill(s, t, Now(), got, queue[j]);
        }
        assert calls[|s.calls|..] == t.calls[|s.calls|..] + got;
        NewLast(t.calls[|s.calls|..], got, |s.requests|, |t.requests|);
        forall fd, dir ensures Progress(s, Now(), Reported(events, fd, dir), fd, dir) {
          ProgressTwice(s, t, Now(), Reported(events, fd, dir), false, fd, dir);
        }
        assert queue[..j] + [queue[j]] == queue[..j + 1];
        j := j + 1;
      }
      assert queue[..j] == queue;
    }
  }

  datatype Event = Event(fd: int, readable: bool, writable: bool)

  /** The event says that `fd` can be read, or written. */
  predicate Reports(e: Event, fd: int, dir: Direction) {
    e.fd == fd && if dir == Read then e.readable else e.writable
  }

  ghost predicate Reported(events: seq<Event>, fd: int, dir: Direction) {
    exists i :: 0 <= i < |events| && Reports(events[i], fd, dir)
  }

  predicate Is(f: int, d: Direction, fd: int, dir: Direction) {
    f == fd && d == dir
  }

  lemma NoneReported(events: seq<Event>)
    ensures events == [] ==> forall fd, dir :: !Reported(events, fd, dir)
  {
  }

  lemma ReportedAppend(events: seq<Event>, e: Event, fd: int, dir: Direction)
    ensures Reported(events + [e], fd, dir) <==> Reported(events, fd, dir) || Reports(e, fd, dir)
  {
    var all := events + [e];
    assert all[|events|] == e;
    if i :| 0 <= i < |events| && Reports(events[i], fd, dir) {
      assert all[i] == events[i];
    }
  }

  // ---------------------------------------------------------------- progress

  /** The scheduler at one moment. */
  datatype Snapshot = Snapshot(requests: seq<Request>, calls: seq<Call>, readSide: Side, writeSide: Side,
                               interest: map<int, Direction>)

  ghost function Waiting(s: Snapshot, fd: int, dir: Direction): seq<Op> {
    QueueOf(SideOf(s.readSide, s.writeSide, dir), fd)
  }

  ghost predicate Ready(s: Snapshot, fd: int, dir: Direction) {
    fd in SideOf(s.readSide, s.writeSide, dir).ready
  }

  /** System calls made since, for a descriptor and direction. */
  ghost function CallsSince(s: Snapshot, t: Snapshot, fd: int, dir: Direction): seq<Call> {
    if |s.calls| <= |t.calls| then About(t.calls[|s.calls|..], fd, dir) else []
  }

  /** Operations submitted since. */
  ghost function NewsSince(s: Snapshot, t: Snapshot, fd: int, dir: Direction): seq<nat> {
    var was, now := Submitted(s.requests, fd, dir), Submitted(t.requests, fd, dir);
    if |was| <= |now| then now[|was|..] else []
  }

  /** From `s` to `t` nothing is forgotten, the operations of `fd` in one direction were served as they
      should be, and `fd` is to be taken out of epoll when it was reported and no operation waits. */
  ghost predicate Progress(s: Snapshot, t: Snapshot, reported: bool, fd: int, dir: Direction) {
    && s.calls <= t.calls && Submitted(s.requests, fd, dir) <= Submitted(t.requests, fd, dir)
    && Served(Waiting(s, fd, dir), Waiting(t, fd, dir), CallsSince(s, t, fd, dir), reported, NewsSince(s, t, fd, dir))
    && (Ready(t, fd, dir) <==> (reported || Ready(s, fd, dir)) && Waiting(t, fd, dir) == [])
  }

  lemma NoProgress(s: Scheduler)
    requires s.Valid()
    ensures forall fd, dir :: Progress(s.Now(), s.Now(), false, fd, dir)
  {
    hide Books, Served;
    var t := s.Now();
    forall fd, dir ensures Progress(t, t, false, fd, dir) {
      ServedNothing(Waiting(t, fd, dir));
      assert t.calls[|t.calls|..] == [] && NewsSince(t, t, fd, dir) == [];
      assert Ready(t, fd, dir) ==> Waiting(t, fd, dir) == [];
    }
  }

  lemma ProgressTwice(s: Snapshot, t: Snapshot, u: Snapshot, a: bool, b: bool, fd: int, dir: Direction)
    requires Progress(s, t, a, fd, dir) && Progress(t, u, b, fd, dir)
    ensures Progress(s, u, a || b, fd, dir)
  {
    hide About, Submitted, Served;
    ServedTwice(Waiting(s, fd, dir), Waiting(t, fd, dir), Waiting(u, fd, dir), CallsSince(s, t, fd, dir), CallsSince(t, u, fd, dir),
                a, b, NewsSince(s, t, fd, dir), NewsSince(t, u, fd, dir));
    assert u.calls[|s.calls|..] == t.calls[|s.calls|..] + u.calls[|t.calls|..];
    AboutAppend(t.calls[|s.calls|..], u.calls[|t.calls|..], fd, dir);
    assert NewsSince(s, u, fd, dir) == NewsSince(s, t, fd, dir) + NewsSince(t, u, fd, dir);
    UntriedStays(Waiting(t, fd, dir), Waiting(u, fd, dir), CallsSince(t, u, fd, dir), b, NewsSince(t, u, fd, dir));
  }

  lemma UntriedStays(q: seq<Op>, r: seq<Op>, calls: seq<Call>, reported: bool, news: seq<nat>)
    requires Served(q, r, calls, reported, news)
    ensures q != [] && !reported ==> q <= r
  {
  }

  /** One report, for `f` and direction `d`. */
  lemma EventProgress(s: Snapshot, t: Snapshot, got: seq<Call>, f: int, d: Direction)
    requires t.requests == s.requests && t.calls == s.calls + got && AllAbout(got, f, d)
    requires OnlyAbout(s.readSide, s.writeSide, t.readSide, t.writeSide, f, d)
    requires Served(Waiting(s, f, d), Waiting(t, f, d), got, true, []) && (Ready(t, f, d) <==> Waiting(t, f, d) == [])
    requires forall fd, dir :: Progress(s, s, false, fd, dir)
    ensures forall fd, dir :: Progress(s, t, Is(f, d, fd, dir), fd, dir)
  {
    hide Served, About, Submitted;
    forall fd, dir ensures Progress(s, t, Is(f, d, fd, dir), fd, dir) {
      assert Progress(s, s, false, fd, dir);
      assert NewsSince(s, t, fd, dir) == [];
      assert t.calls[|s.calls|..] == got && s.calls[|s.calls|..] == [];
      AboutAll(got, f, d, fd, dir);
      assert About([], fd, dir) == [] by { AboutAll([], f, d, fd, dir); }
    }
  }

  /** One new operation. */
  lemma DispatchProgress(s: Snapshot, t: Snapshot, got: seq<Call>, r: Request)
    requires t.requests == s.requests + [r] && t.calls == s.calls + got && AllAbout(got, r.fildes, r.dir)
    requires OnlyAbout(s.readSide, s.writeSide, t.readSide, t.writeSide, r.fildes, r.dir)
    requires Served(Waiting(s, r.fildes, r.dir), Waiting(t, r.fildes, r.dir), got, false, [|s.requests|])
    requires Ready(t, r.fildes, r.dir) <==> Ready(s, r.fildes, r.dir) && Waiting(t, r.fildes, r.dir) == []
    requires forall fd, dir :: Progress(s, s, false, fd, dir)
    ensures forall fd, dir :: Progress(s, t, false, fd, dir)
  {
    hide Served, About, Submitted;
    forall fd, dir ensures Progress(s, t, false, fd, dir) {
      assert Progress(s, s, false, fd, dir);
      assert t.calls[|s.calls|..] == got && s.calls[|s.calls|..] == [];
      AboutAll(got, r.fildes, r.dir, fd, dir);
      assert About([], fd, dir) == [] by { AboutAll([], r.fildes, r.dir, fd, dir); }
      SubmittedAppend(s.requests, r, fd, dir);
      assert NewsSince(s, s, fd, dir) == [];
      assert NewsSince(s, t, fd, dir) == if Is(r.fildes, r.dir, fd, dir) then [|s.requests|] else [];
    }
  }

  /** What one turn comes to for a descriptor and direction: operations that waited were tried exactly
      when epoll reported it, and it is freed exactly when it was reported and none of them waits. */
  ghost predicate TurnAbout(s: Snapshot, t: Snapshot, events: seq<Event>, freeReads: set<int>, freeWrites: set<int>,
                            fd: int, dir: Direction) {
    && s.calls <= t.calls && Submitted(s.requests, fd, dir) <= Submitted(t.requests, fd, dir)
    && Served(Waiting(s, fd, dir), Waiting(t, fd, dir), CallsSince(s, t, fd, dir), Reported(events, fd, dir), NewsSince(s, t, fd, dir))
    && (fd in (if dir == Read then freeReads else freeWrites) <==> Reported(events, fd, dir) && Waiting(t, fd, dir) == [])
  }

  lemma Cleared(s: Snapshot, t: Snapshot, u: Snapshot, events: seq<Event>, freeReads: set<int>, freeWrites: set<int>, fd: int, dir: Direction)
    requires Progress(s, t, Reported(events, fd, dir), fd, dir) && !Ready(s, fd, dir)
    requires freeReads == t.readSide.ready && freeWrites == t.writeSide.ready
    requires u.requests == t.requests && u.calls == t.calls
    requires u.readSide == t.readSide.(ready := {}) && u.writeSide == t.writeSide.(ready := {})
    ensures TurnAbout(s, u, events, freeReads, freeWrites, fd, dir)
  {
    hide Served, About, Submitted, Reported;
    assert Waiting(u, fd, dir) == Waiting(t, fd, dir);
  }

  // ---------------------------------------------------------------- what epoll watches

  function Other(dir: Direction): Direction {
    if dir == Read then Write else Read
  }

  /** Epoll watches a descriptor in exactly the direction that operations wait for. */
  ghost predicate WatchedAt(s: Snapshot, fd: int) {
    forall dir :: Waiting(s, fd, dir) != [] <==> fd in s.interest && s.interest[fd] == dir
  }

  ghost predicate Watched(s: Snapshot) {
    forall fd :: WatchedAt(s, fd)
  }

  /** Epoll reports what it watches. */
  ghost predicate ReportsWatched(s: Snapshot, events: seq<Event>) {
    forall i, dir :: 0 <= i < |events| && Reports(events[i], events[i].fd, dir) ==>
      events[i].fd in s.interest && s.interest[events[i].fd] == dir
  }

  /** No descriptor has an operation waiting in one direction after a turn of which another waits in
      the other direction, or did before. */
  ghost predicate OneWay(s: Snapshot, t: Snapshot, fd: int) {
    forall dir :: Waiting(t, fd, dir) != [] ==> Waiting(s, fd, Other(dir)) == [] && Waiting(t, fd, Other(dir)) == []
  }

  /** A turn loses a registration exactly when a descriptor is used both ways. */
  ghost predicate WatchedAfter(s: Snapshot, t: Snapshot, events: seq<Event>) {
    Watched(s) && ReportsWatched(s, events) ==> (Watched(t) <==> forall fd :: OneWay(s, t, fd))
  }

  lemma NotWatched(s: Snapshot, t: Snapshot, events: seq<Event>)
    requires !Watched(s)
    ensures WatchedAfter(s, t, events)
  {
  }

  /** Within a turn: what was watched still is, in the direction in which it was; any other descriptor
      is when operations wait for it, in a direction in which they do. */
  ghost predicate RegisteredAt(s: Snapshot, t: Snapshot, fd: int) {
    if fd in s.interest then fd in t.interest && t.interest[fd] == s.interest[fd]
    else if fd in t.interest then Waiting(t, fd, t.interest[fd]) != []
    else forall dir :: Waiting(t, fd, dir) == []
  }

  ghost predicate Registered(s: Snapshot, t: Snapshot) {
    forall fd :: RegisteredAt(s, t, fd)
  }

  /** Before the new operations. */
  lemma RegisteredStart(s: Snapshot, t: Snapshot, events: seq<Event>)
    requires Watched(s) && t.interest == s.interest && t.requests == s.requests
    requires forall fd, dir :: Progress(s, t, Reported(events, fd, dir), fd, dir)
    ensures Registered(s, t)
  {
    hide Reported;
    forall fd ensures RegisteredAt(s, t, fd) {
      assert WatchedAt(s, fd);
      forall dir | fd !in s.interest ensures Waiting(t, fd, dir) == [] {
        assert Progress(s, t, Reported(events, fd, dir), fd, dir);
        assert Waiting(s, fd, dir) == [] && NewsSince(s, t, fd, dir) == [];
        StaysEmpty(Waiting(t, fd, dir), CallsSince(s, t, fd, dir), Reported(events, fd, dir));
      }
    }
  }

  lemma StaysEmpty(r: seq<Op>, calls: seq<Call>, reported: bool)
    requires Served([], r, calls, reported, [])
    ensures r == []
  {
  }

  /** With one more operation. */
  lemma RegisteredStill(s: Snapshot, t: Snapshot, u: Snapshot, got: seq<Call>, r: Request)
    requires Registered(s, t) && OnlyAbout(t.readSide, t.writeSide, u.readSide, u.writeSide, r.fildes, r.dir)
    requires Served(Waiting(t, r.fildes, r.dir), Waiting(u, r.fildes, r.dir), got, false, [|t.requests|])
    requires forall f :: f in t.interest ==> f in u.interest && u.interest[f] == t.interest[f]
    requires forall f :: f in u.interest && f !in t.interest ==> f == r.fildes && u.interest[f] == r.dir && Waiting(u, f, r.dir) != []
    requires Waiting(t, r.fildes, r.dir) == [] && Waiting(u, r.fildes, r.dir) != [] ==> r.fildes in u.interest
    ensures Registered(s, u)
  {
    UntriedStays(Waiting(t, r.fildes, r.dir), Waiting(u, r.fildes, r.dir), got, false, [|t.requests|]);
    hide Served;
    forall fd ensures RegisteredAt(s, u, fd) {
      assert RegisteredAt(s, t, fd);
      assert forall dir :: !Is(r.fildes, r.dir, fd, dir) ==> Waiting(u, fd, dir) == Waiting(t, fd, dir);
    }
  }

  /** And when the descriptors that are free have been taken out. */
  lemma TurnWatched(s: Snapshot, t: Snapshot, u: Snapshot, events: seq<Event>, freeReads: set<int>, freeWrites: set<int>)
    requires Watched(s) && Registered(s, t) && u.interest == t.interest - (freeReads + freeWrites)
    requires forall fd, dir :: TurnAbout(s, u, events, freeReads, freeWrites, fd, dir)
    requires u.readSide.queues == t.readSide.queues && u.writeSide.queues == t.writeSide.queues
    ensures WatchedAfter(s, u, events)
  {
    if ReportsWatched(s, events) {
      forall fd ensures WatchedAt(u, fd) <==> OneWay(s, u, fd) {
        assert WatchedAt(s, fd) && RegisteredAt(s, t, fd);
        assert forall dir :: Waiting(u, fd, dir) == Waiting(t, fd, dir);
        FreedOne(s, u, events, freeReads, freeWrites, fd);
      }
    }
    hide WatchedAt, OneWay;
  }

  /** A descriptor is taken out exactly when it was watched and what waited for it is done. */
  lemma FreedOne(s: Snapshot, u: Snapshot, events: seq<Event>, freeReads: set<int>, freeWrites: set<int>, fd: int)
    requires WatchedAt(s, fd) && ReportsWatched(s, events)
    requires forall fd, dir :: TurnAbout(s, u, events, freeReads, freeWrites, fd, dir)
    ensures fd in freeReads + freeWrites <==> fd in s.interest && Waiting(u, fd, s.interest[fd]) == []
  {
    hide Served;
    assert TurnAbout(s, u, events, freeReads, freeWrites, fd, Read) && TurnAbout(s, u, events, freeReads, freeWrites, fd, Write);
    assert forall dir :: Reported(events, fd, dir) ==> fd in s.interest && s.interest[fd] == dir;
    if fd in s.interest {
      var dir := s.interest[fd];
      UntriedStays(Waiting(s, fd, dir), Waiting(u, fd, dir), CallsSince(s, u, fd, dir), Reported(events, fd, dir), NewsSince(s, u, fd, dir));
    }
  }

  // ---------------------------------------------------------------- what the books say

  /** Per descriptor and direction, results are given in the order of submission. */
  lemma CompletedInOrder(requests: seq<Request>, moved: seq<Move>, completed: seq<Completion>, rs: Side, ws: Side, fd: int, dir: Direction)
    requires Books(requests, moved, completed, rs, ws)
    ensures Finished(requests, completed, fd, dir) <= Submitted(requests, fd, dir)
    ensures Increasing(Finished(requests, completed, fd, dir))
    ensures QueueOf(SideOf(rs, ws, dir), fd) == [] ==> Finished(requests, completed, fd, dir) == Submitted(requests, fd, dir)
  {
    var q := QueueOf(SideOf(rs, ws, dir), fd);
    assert Ledger(requests, moved, completed, q, fd, dir);
    SubmittedIncreasing(requests, fd, dir);
    var done, all := Finished(requests, completed, fd, dir), Submitted(requests, fd, dir);
    assert forall i :: 0 <= i < |done| ==> all[i] == done[i];
  }

  /** No future is given two results. */
  lemma CompletedAtMostOnce(requests: seq<Request>, moved: seq<Move>, completed: seq<Completion>, rs: Side, ws: Side, i: nat, j: nat)
    requires Books(requests, moved, completed, rs, ws) && i < j < |completed|
    ensures completed[i].id != completed[j].id
  {
    forall fd, dir ensures Increasing(Finished(requests, completed, fd, dir)) {
      CompletedInOrder(requests, moved, completed, rs, ws, fd, dir);
    }
    hide Books;
    assert completed[j].id < |requests| by { assert Truthful(requests, moved, completed) by { BooksTruthful(requests, moved, completed, rs, ws); } }
    Once(requests, completed, i, j);
  }

  lemma BooksTruthful(requests: seq<Request>, moved: seq<Move>, completed: seq<Completion>, rs: Side, ws: Side)
    requires Books(requests, moved, completed, rs, ws)
    ensures Truthful(requests, moved, completed) && GapFree(requests, moved)
  {
  }

  lemma {:induction false} Once(requests: seq<Request>, completed: seq<Completion>, i: nat, j: nat)
    requires i < j < |completed| && completed[j].id < |requests|
    requires forall fd, dir :: Increasing(Finished(requests, completed, fd, dir))
    ensures completed[i].id != completed[j].id
    decreases |completed|
  {
    var init := completed[..|completed| - 1];
    if j < |completed| - 1 {
      forall fd, dir ensures Increasing(Finished(requests, init, fd, dir)) {
        assert Increasing(Finished(requests, completed, fd, dir));
        var c := completed[|completed| - 1];
        assert Finished(requests, completed, fd, dir) == Finished(requests, init, fd, dir)
          + (if c.id < |requests| && requests[c.id].fildes == fd && requests[c.id].dir == dir then [c.id] else []);
        PrefixIncreasing(Finished(requests, init, fd, dir), Finished(requests, completed, fd, dir));
      }
      Once(requests, init, i, j);
    } else if completed[i].id < |requests| {
      var r := requests[completed[j].id];
      var before, all := Finished(requests, init, r.fildes, r.dir), Finished(requests, completed, r.fildes, r.dir);
      assert all == before + [completed[j].id] && Increasing(all);
      FinishedHas(requests, init, i);
      assert completed[i].id == completed[j].id ==> completed[j].id in before;
      LastIsNew(before, completed[j].id);
    }
  }

  lemma PrefixIncreasing(a: seq<nat>, b: seq<nat>)
    requires a <= b && Increasing(b)
    ensures Increasing(a)
  {
    assert forall i :: 0 <= i < |a| ==> a[i] == b[i];
  }

  lemma LastIsNew(ids: seq<nat>, x: nat)
    requires Increasing(ids + [x])
    ensures x !in ids
  {
    forall i | 0 <= i < |ids| ensures ids[i] < x {
      assert (ids + [x])[i] == ids[i] && (ids + [x])[|ids|] == x;
    }
  }

  lemma {:induction false} TotalSkips(moved: seq<Move>, i: nat, j: nat, id: nat)
    requires i < j <= |moved| && moved[i].id == id && forall k :: i < k < j ==> moved[k].id != id
    ensures Total(moved[..j], id) == Total(moved[..i], id) + moved[i].n
    decreases j
  {
    assert moved[..j][..j - 1] == moved[..j - 1];
    if i < j - 1 {
      TotalSkips(moved, i, j - 1, id);
    }
  }

  /** An operation's transfers are of consecutive pieces of its buffer, from the beginning, over any
      number of retries; and a successful result is their total length. */
  lemma SendsAPrefix(requests: seq<Request>, moved: seq<Move>, completed: seq<Completion>, rs: Side, ws: Side, i: nat, j: nat)
    requires Books(requests, moved, completed, rs, ws) && j < |moved| && moved[j].id < |requests|
    ensures (forall k :: 0 <= k < j ==> moved[k].id != moved[j].id) ==> moved[j].addr == requests[moved[j].id].buf
    ensures i < j && moved[i].id == moved[j].id && (forall k :: i < k < j ==> moved[k].id != moved[j].id) ==>
      moved[j].addr == moved[i].addr + moved[i].n
  {
    BooksTruthful(requests, moved, completed, rs, ws);
    hide Books;
    var id := moved[j].id;
    if forall k :: 0 <= k < j ==> moved[k].id != id {
      TotalOfNew(requests, moved[..j], id);
    }
    if i < j && moved[i].id == id && forall k :: i < k < j ==> moved[k].id != id {
      TotalSkips(moved, i, j, id);
    }
  }

  // ---------------------------------------------------------------- whole runs

  /** What one turn of the loop gets: epoll's events, and the queue's operations if it was signalled. */
  datatype TurnInput = TurnInput(events: seq<Event>, checkQueue: bool, queue: seq<Request>)

  /** The operations that were taken from the queue, in order. */
  function Taken(turns: seq<TurnInput>): seq<Request> {
    if turns == [] then []
    else
      var t := turns[|turns| - 1];
      Taken(turns[..|turns| - 1]) + if t.checkQueue then t.queue else []
  }

  /** Transfer `j` starts where the last one of the same operation ended, the first at the buffer. */
  ghost predicate FollowsOn(requests: seq<Request>, moved: seq<Move>, j: int)
    requires 0 <= j < |moved|
  {
    && moved[j].id < |requests|
    && ((forall k :: 0 <= k < j ==> moved[k].id != moved[j].id) ==> moved[j].addr == requests[moved[j].id].buf)
    && forall i :: 0 <= i < j && moved[i].id == moved[j].id && (forall k :: i < k < j ==> moved[k].id != moved[j].id) ==>
         moved[j].addr == moved[i].addr + moved[i].n
  }

  /** Turn `n` of a run. */
  ghost predicate TurnOf(history: seq<Snapshot>, turns: seq<TurnInput>, freed: seq<(set<int>, set<int>)>, n: int)
    requires 0 <= n < |turns| == |freed| && |history| == |turns| + 1
  {
    var s, t, events, freeReads, freeWrites := history[n], history[n + 1], turns[n].events, freed[n].0, freed[n].1;
    WatchedAfter(s, t, events) && forall fd, dir :: TurnAbout(s, t, events, freeReads, freeWrites, fd, dir)
  }

  /** Where operations wait, the kernel said last of that descriptor and direction that the one at the
      front would block. */
  ghost predicate WaitsRightly(s: Snapshot, fd: int, dir: Direction) {
    Waiting(s, fd, dir) != [] ==> About(s.calls, fd, dir) != [] && WouldBlock(About(s.calls, fd, dir), Waiting(s, fd, dir))
  }

  lemma WaitsRightlyStill(s: Snapshot, t: Snapshot, events: seq<Event>, freeReads: set<int>, freeWrites: set<int>, fd: int, dir: Direction)
    requires WaitsRightly(s, fd, dir) && TurnAbout(s, t, events, freeReads, freeWrites, fd, dir)
    ensures WaitsRightly(t, fd, dir)
  {
    hide About, Submitted, Ids, Reported;
    var more := CallsSince(s, t, fd, dir);
    assert t.calls == s.calls + t.calls[|s.calls|..];
    AboutAppend(s.calls, t.calls[|s.calls|..], fd, dir);
    if more == [] {
      ServedIdle(Waiting(s, fd, dir), Waiting(t, fd, dir), Reported(events, fd, dir), NewsSince(s, t, fd, dir));
      assert About(s.calls, fd, dir) + [] == About(s.calls, fd, dir);
    }
    hide LeaveInOrder;
  }

  /** Any number of turns, on any events, any operations and any answers of the kernel: per descriptor
      and direction what was submitted is what has completed, in order, and then what waits; no future
      completes twice; each result is what was transferred, never more than was asked for, or an error;
      transfers follow each other without gap; and a descriptor is blocked exactly when operations wait.
      In every turn operations that wait are retried exactly where a report came; and those that wait in
      the end do so because the kernel said to try again. */
  method AnyTurns(turns: seq<TurnInput>) returns (s: Scheduler, freed: seq<(set<int>, set<int>)>, ghost history: seq<Snapshot>)
    requires forall i, j :: 0 <= i < |turns| && 0 <= j < |turns[i].queue| ==> turns[i].queue[j].nbyte < SIZE_MAX
    ensures s.requests == Taken(turns)
    ensures forall fd, dir :: Submitted(s.requests, fd, dir) == Finished(s.requests, s.completed, fd, dir) + Ids(s.Queue(dir, fd))
    ensures forall i, j :: 0 <= i < j < |s.completed| ==> s.completed[i].id != s.completed[j].id
    ensures forall i :: 0 <= i < |s.completed| ==>
      var c := s.completed[i];
      && c.id < |s.requests| && 0 <= Total(s.moved, c.id) <= s.requests[c.id].nbyte
      && (c.ret == Total(s.moved, c.id) || c.ret == -1)
    ensures forall j :: 0 <= j < |s.moved| ==> FollowsOn(s.requests, s.moved, j)
    ensures forall fd, dir :: fd in SideOf(s.readSide, s.writeSide, dir).blocked <==> s.Queue(dir, fd) != []
    ensures RunOf(history, turns, freed) && history[|turns|] == s.Now()
    ensures forall fd, dir :: WaitsRightly(s.Now(), fd, dir)
  {
    s := new Scheduler();
    freed, history := [], [s.Now()];
    var n := 0;
    assert forall fd, dir :: WaitsRightly(s.Now(), fd, dir);
    hide Scheduler.Valid, TurnAbout, WaitsRightly, WatchedAfter;
    while n < |turns|
      invariant 0 <= n <= |turns| && s.Resting() && fresh(s) && s.requests == Taken(turns[..n])
      invariant |freed| == n && |history| == n + 1 && history[0] == Snapshot([], [], EMPTY, EMPTY, map[]) && history[n] == s.Now()
      invariant forall m :: 0 <= m < n ==> TurnOf(history, turns[..n], freed, m)
      invariant forall fd, dir :: WaitsRightly(s.Now(), fd, dir)
    {
      assert turns[..n + 1][..n] == turns[..n];
      ghost var before := s.Now();
      var freeReads, freeWrites := s.Turn(turns[n].events, turns[n].checkQueue, turns[n].queue);
      forall fd, dir ensures WaitsRightly(s.Now(), fd, dir) {
        WaitsRightlyStill(before, s.Now(), turns[n].events, freeReads, freeWrites, fd, dir);
      }
      ghost var earlier, freedBefore := history, freed;
      freed, history := freed + [(freeReads, freeWrites)], history + [s.Now()];
      TurnsMore(earlier, history, turns[..n], turns[..n + 1], freedBefore, freed);
      n := n + 1;
    }
    assert turns[..n] == turns;
    RunFacts(s);
  }

  /** One more turn. */
  lemma TurnsMore(history: seq<Snapshot>, h: seq<Snapshot>, turns: seq<TurnInput>, i: seq<TurnInput>,
                  freed: seq<(set<int>, set<int>)>, f: seq<(set<int>, set<int>)>)
    requires |turns| == |freed| && |history| == |turns| + 1
    requires |i| == |turns| + 1 && turns <= i && |h| == |i| + 1 && history <= h && |f| == |i| && freed <= f
    requires forall m :: 0 <= m < |turns| ==> TurnOf(history, turns, freed, m)
    requires TurnOf(h, i, f, |turns|)
    ensures forall m :: 0 <= m < |i| ==> TurnOf(h, i, f, m)
  {
    hide TurnAbout, WatchedAfter;
    forall m | 0 <= m < |i| ensures TurnOf(h, i, f, m) {
      if m < |turns| {
        assert TurnOf(history, turns, freed, m) && turns[m] == i[m] && f[m] == freed[m] && h[m] == history[m] && h[m + 1] == history[m + 1];
      }
    }
  }

  /** A run of turns from the start. */
  ghost predicate RunOf(history: seq<Snapshot>, turns: seq<TurnInput>, freed: seq<(set<int>, set<int>)>) {
    && |turns| == |freed| && |history| == |turns| + 1 && history[0] == Snapshot([], [], EMPTY, EMPTY, map[])
    && forall n :: 0 <= n < |turns| ==> TurnOf(history, turns, freed, n)
  }

  /** No descriptor is read by one operation and written by another. */
  ghost predicate UsedOneWay(requests: seq<Request>) {
    forall i, j :: 0 <= i < |requests| && 0 <= j < |requests| && requests[i].fildes == requests[j].fildes ==> requests[i].dir == requests[j].dir
  }

  lemma {:induction false} SubmittedWhich(requests: seq<Request>, fd: int, dir: Direction)
    ensures Submitted(requests, fd, dir) != [] <==> exists i :: 0 <= i < |requests| && requests[i].fildes == fd && requests[i].dir == dir
  {
    if requests != [] {
      var last := |requests| - 1;
      SubmittedWhich(requests[..last], fd, dir);
      assert forall i :: 0 <= i < last ==> requests[..last][i] == requests[i];
    }
  }

  lemma RunTurn(history: seq<Snapshot>, turns: seq<TurnInput>, freed: seq<(set<int>, set<int>)>, n: nat, fd: int, dir: Direction)
    requires RunOf(history, turns, freed) && n <= |turns|
    ensures |history| == |turns| + 1 == |freed| + 1
    ensures n == 0 ==> history[0] == Snapshot([], [], EMPTY, EMPTY, map[])
    ensures n > 0 ==> TurnAbout(history[n - 1], history[n], turns[n - 1].events, freed[n - 1].0, freed[n - 1].1, fd, dir)
    ensures n > 0 ==> WatchedAfter(history[n - 1], history[n], turns[n - 1].events)
  {
    hide TurnAbout, WatchedAfter;
    if n > 0 {
      assert TurnOf(history, turns, freed, n - 1);
    }
  }

  /** Operations of a kind that was never submitted do not wait. */
  lemma {:induction false} NeverWaits(history: seq<Snapshot>, turns: seq<TurnInput>, freed: seq<(set<int>, set<int>)>, n: nat, fd: int, dir: Direction)
    requires RunOf(history, turns, freed) && n < |history| == |turns| + 1 && Submitted(history[n].requests, fd, dir) == []
    ensures Waiting(history[n], fd, dir) == []
  {
    hide RunOf, Submitted, TurnAbout, WatchedAfter;
    RunTurn(history, turns, freed, n, fd, dir);
    if n > 0 {
      TurnNeverWaits(history[n - 1], history[n], turns[n - 1].events, freed[n - 1].0, freed[n - 1].1, fd, dir);
      NeverWaits(history, turns, freed, n - 1, fd, dir);
    }
  }

  lemma TurnNeverWaits(s: Snapshot, t: Snapshot, events: seq<Event>, freeReads: set<int>, freeWrites: set<int>, fd: int, dir: Direction)
    requires TurnAbout(s, t, events, freeReads, freeWrites, fd, dir) && Submitted(t.requests, fd, dir) == []
    ensures Submitted(s.requests, fd, dir) == [] && (Waiting(s, fd, dir) == [] ==> Waiting(t, fd, dir) == [])
  {
    hide Submitted, Served, About, Reported;
    if Waiting(s, fd, dir) == [] {
      StaysEmpty(Waiting(t, fd, dir), CallsSince(s, t, fd, dir), Reported(events, fd, dir));
    }
  }

  lemma {:induction false} SubmittedGrows(history: seq<Snapshot>, turns: seq<TurnInput>, freed: seq<(set<int>, set<int>)>, n: nat, m: nat, fd: int, dir: Direction)
    requires RunOf(history, turns, freed) && n <= m < |history| == |turns| + 1
    ensures Submitted(history[n].requests, fd, dir) <= Submitted(history[m].requests, fd, dir)
    decreases m
  {
    hide RunOf, Submitted, TurnAbout, WatchedAfter;
    if n < m {
      RunTurn(history, turns, freed, m, fd, dir);
      TurnGrows(history[m - 1], history[m], turns[m - 1].events, freed[m - 1].0, freed[m - 1].1, fd, dir);
      SubmittedGrows(history, turns, freed, n, m - 1, fd, dir);
    }
  }

  lemma TurnGrows(s: Snapshot, t: Snapshot, events: seq<Event>, freeReads: set<int>, freeWrites: set<int>, fd: int, dir: Direction)
    requires TurnAbout(s, t, events, freeReads, freeWrites, fd, dir)
    ensures Submitted(s.requests, fd, dir) <= Submitted(t.requests, fd, dir)
  {
    hide Submitted, Served, About, Reported;
  }

  /** Of a descriptor that is used one way only, operations wait one way only. */
  lemma OneWayWaits(history: seq<Snapshot>, turns: seq<TurnInput>, freed: seq<(set<int>, set<int>)>, n: nat, m: nat, fd: int, dir: Direction)
    requires RunOf(history, turns, freed) && UsedOneWay(history[|turns|].requests)
    requires n <= |turns| && m <= |turns| && Waiting(history[n], fd, dir) != []
    ensures Waiting(history[m], fd, Other(dir)) == []
  {
    hide RunOf, Submitted;
    RunTurn(history, turns, freed, n, fd, dir);
    var all := history[|turns|].requests;
    if Submitted(history[n].requests, fd, dir) == [] { NeverWaits(history, turns, freed, n, fd, dir); }
    SubmittedGrows(history, turns, freed, n, |turns|, fd, dir);
    SubmittedGrows(history, turns, freed, m, |turns|, fd, Other(dir));
    SubmittedWhich(all, fd, dir);
    SubmittedWhich(all, fd, Other(dir));
    assert Submitted(all, fd, Other(dir)) == [];
    NeverWaits(history, turns, freed, m, fd, Other(dir));
  }

  /** When every descriptor is used one way only, epoll watches whatever operations wait for, after
      every turn. */
  lemma {:induction false} OneWayIsWatched(history: seq<Snapshot>, turns: seq<TurnInput>, freed: seq<(set<int>, set<int>)>, n: nat)
    requires RunOf(history, turns, freed) && UsedOneWay(history[|turns|].requests) && n <= |turns|
    requires forall m :: 0 <= m < n ==> ReportsWatched(history[m], turns[m].events)
    ensures Watched(history[n])
  {
    hide RunOf, Watched, UsedOneWay, ReportsWatched, TurnAbout, OneWay;
    RunTurn(history, turns, freed, n, 0, Read);
    StartWatched();
    if n > 0 {
      OneWayIsWatched(history, turns, freed, n - 1);
      var s, t := history[n - 1], history[n];
      forall fd ensures OneWay(s, t, fd) {
        OneWayTurn(history, turns, freed, n, fd);
      }
    }
  }

  lemma StartWatched()
    ensures Watched(Snapshot([], [], EMPTY, EMPTY, map[]))
  {
  }

  lemma OneWayTurn(history: seq<Snapshot>, turns: seq<TurnInput>, freed: seq<(set<int>, set<int>)>, n: nat, fd: int)
    requires RunOf(history, turns, freed) && UsedOneWay(history[|turns|].requests) && 0 < n <= |turns|
    ensures OneWay(history[n - 1], history[n], fd)
  {
    hide RunOf, UsedOneWay, TurnAbout, WatchedAfter, QueueOf, SideOf;
    RunTurn(history, turns, freed, n, fd, Read);
    if Waiting(history[n], fd, Read) != [] {
      OneWayWaits(history, turns, freed, n, n - 1, fd, Read);
      OneWayWaits(history, turns, freed, n, n, fd, Read);
    }
    if Waiting(history[n], fd, Write) != [] {
      OneWayWaits(history, turns, freed, n, n - 1, fd, Write);
      OneWayWaits(history, turns, freed, n, n, fd, Write);
    }
  }

  /** Operations wait for a report that epoll was not asked for. */
  ghost predicate Unwatched(s: Snapshot, fd: int, dir: Direction) {
    Waiting(s, fd, dir) != [] && !(fd in s.interest && s.interest[fd] == dir)
  }

  /** A read and a write of descriptor 5, neither of which can be done at once: one of them waits for a
      report that epoll was not asked for. */
  method BothWays(buf: int) returns (s: Scheduler)
    ensures s.requests == [Request(5, Read, buf, 1), Request(5, Write, buf, 1)]
    ensures s.Queue(Read, 5) != [] && s.Queue(Write, 5) != [] ==>
      !Watched(s.Now()) && (Unwatched(s.Now(), 5, Read) || Unwatched(s.Now(), 5, Write))
  {
    s := new Scheduler();
    hide Scheduler.Valid, TurnAbout, WatchedAfter;
    var freeReads, freeWrites := s.Turn([], true, [Request(5, Read, buf, 1), Request(5, Write, buf, 1)]);
    if s.Queue(Read, 5) != [] && s.Queue(Write, 5) != [] {
      assert Waiting(s.Now(), 5, Read) != [] && Waiting(s.Now(), 5, Write) != [];
      assert !WatchedAt(s.Now(), 5);
    }
  }

  lemma RunFacts(s: Scheduler)
    requires s.Valid()
    ensures forall fd, dir :: Submitted(s.requests, fd, dir) == Finished(s.requests, s.completed, fd, dir) + Ids(s.Queue(dir, fd))
    ensures forall i, j :: 0 <= i < j < |s.completed| ==> s.completed[i].id != s.completed[j].id
    ensures Truthful(s.requests, s.moved, s.completed)
    ensures forall j :: 0 <= j < |s.moved| ==> FollowsOn(s.requests, s.moved, j)
    ensures forall fd, dir :: fd in SideOf(s.readSide, s.writeSide, dir).blocked <==> s.Queue(dir, fd) != []
  {
    hide Total, Submitted, Finished, Ids, GapFree, Truthful, AllOnTrack;
    forall fd, dir ensures Submitted(s.requests, fd, dir) == Finished(s.requests, s.completed, fd, dir) + Ids(s.Queue(dir, fd)) {
      assert Ledger(s.requests, s.moved, s.completed, s.Queue(dir, fd), fd, dir);
    }
    forall fd, dir ensures fd in SideOf(s.readSide, s.writeSide, dir).blocked <==> s.Queue(dir, fd) != [] {
      assert fd in SideOf(s.readSide, s.writeSide, dir).blocked <==> QueueOf(SideOf(s.readSide, s.writeSide, dir), fd) != [];
    }
    hide Books, Flags;
    forall i, j | 0 <= i < j < |s.completed| ensures s.completed[i].id != s.completed[j].id {
      CompletedAtMostOnce(s.requests, s.moved, s.completed, s.readSide, s.writeSide, i, j);
    }
    forall j | 0 <= j < |s.moved| ensures FollowsOn(s.requests, s.moved, j) {
      TransferFollowsOn(s.requests, s.moved, s.completed, s.readSide, s.writeSide, j);
    }
  }

  lemma TransferFollowsOn(requests: seq<Request>, moved: seq<Move>, completed: seq<Completion>, rs: Side, ws: Side, j: nat)
    requires Books(requests, moved, completed, rs, ws) && j < |moved|
    ensures FollowsOn(requests, moved, j)
  {
    BooksTruthful(requests, moved, completed, rs, ws);
    assert moved[j].id < |requests|;
    hide GapFree, Books;
    SendsAPrefix(requests, moved, completed, rs, ws, 0, j);
    forall i | 0 <= i < j && moved[i].id == moved[j].id && (forall k :: i < k < j ==> moved[k].id != moved[j].id)
      ensures moved[j].addr == moved[i].addr + moved[i].n
    {
      SendsAPrefix(requests, moved, completed, rs, ws, i, j);
    }
  }
}
