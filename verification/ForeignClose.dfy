/** A descriptor the kernel watches is closed behind the extension's back. */
module ForeignCloses {
  import opened Options
  import opened Registry
  import opened Machine
  import opened Invariants
  import opened LeavingSteps
  import opened Nesting
  import opened Effects
  import opened Ownership

  /** The kernel drops the descriptor and nothing else happens, so that the table and the
      kernel no longer agree. */
  lemma ForeignCloseStep(s: State, fd: int, r: State)
    requires Agrees(s.table) && fd in s.table.epoll && Step(s, DoForeignClose(fd)) == Ok(r)
    ensures fd !in r.table.epoll && forall x | x != fd :: x in r.table.epoll <==> x in s.table.epoll
    ensures r.table.events == s.table.events && r.table.address == s.table.address
    ensures r == s.(table := r.table) && !Agrees(r.table)
  {
    ForeignCloseAgreesIff(s.table, fd);
  }

  // ----- the way out does not look at the kernel

  function WithEpoll(s: State, epoll: set<int>): State {
    s.(table := s.table.(epoll := epoll))
  }

  function OutcomeWithEpoll(o: Outcome, epoll: set<int>): Outcome {
    match o
    case Ok(r) => Ok(WithEpoll(r, epoll))
    case Fault => Fault
  }

  lemma SettleIgnoresEpoll(s: State, callback: nat, epoll: set<int>)
    ensures SettleCallback(WithEpoll(s, epoll), callback) == OutcomeWithEpoll(SettleCallback(s, callback), epoll)
  {
  }

  lemma RestoreIgnoresEpoll(s: State, prev: nat, saved: Regs, required: bool, epoll: set<int>)
    ensures RestoreParent(WithEpoll(s, epoll), prev, saved, required)
            == OutcomeWithEpoll(RestoreParent(s, prev, saved, required), epoll)
  {
  }

  lemma ReleaseIgnoresEpoll(s: State, context: nat, epoll: set<int>)
    ensures Machine.Release(WithEpoll(s, epoll), context) == OutcomeWithEpoll(Machine.Release(s, context), epoll)
  {
  }

  lemma ReturnIgnoresEpoll(s: State, epoll: set<int>)
    ensures Return(WithEpoll(s, epoll)) == OutcomeWithEpoll(Return(s), epoll)
  {
    if s.frames != [] {
      var s1 := s.(frames := s.frames[..|s.frames| - 1], require := false);
      assert WithEpoll(s, epoll).(frames := s1.frames, require := false) == WithEpoll(s1, epoll);
      match Top(s)
      case CreateFrame(prev, required, saved, callback, _) =>
        SettleIgnoresEpoll(s1, callback, epoll);
        if SettleCallback(s1, callback).Ok? {
          RestoreIgnoresEpoll(SettleCallback(s1, callback).state, prev, saved, required, epoll);
        }
      case ResumeFrame(prev, required, saved, context, _) =>
        ReleaseIgnoresEpoll(s1, context, epoll);
        if Machine.Release(s1, context).Ok? {
          RestoreIgnoresEpoll(Machine.Release(s1, context).state, prev, saved, required, epoll);
        }
      case InvokeFrame(_, _, context, _) => ReleaseIgnoresEpoll(s1, context, epoll);
    }
  }

  lemma JumpIgnoresEpoll(s: State, epoll: set<int>)
    ensures Jump(WithEpoll(s, epoll)) == OutcomeWithEpoll(Jump(s), epoll)
  {
    if s.checkPoint in s.jmp && 0 < s.jmp[s.checkPoint] <= |s.frames| {
      ReturnIgnoresEpoll(s.(regs := s.regs.(vm := s.origin), frames := s.frames[..s.jmp[s.checkPoint]]), epoll);
    }
  }

  /** A wait on a descriptor with a waiter goes the same way whatever the kernel watches. */
  lemma BusyWaitIgnoresEpoll(s: State, fd: int, req: Request, added: bool, epoll: set<int>)
    requires Agrees(s.table) && IsFd(fd) && EntryOf(s.table, fd).context.Some?
    ensures Wait(WithEpoll(s, epoll), fd, req, added) == OutcomeWithEpoll(Wait(s, fd, req, false), epoll)
    ensures Store(WithEpoll(s, epoll).table, fd, s.next, req, added) == Stored(WithEpoll(s, epoll).table, true)
  {
    var m := WithEpoll(s, epoll);
    assert EntryAgrees(s.table, fd);
    assert Store(s.table, fd, s.next, req, false).table.events == s.table.events;
    assert Store(m.table, fd, s.next, req, added).table.events == m.table.events;
    assert SaveByFd(m, m.table, fd) == WithEpoll(SaveByFd(s, s.table, fd), epoll);
    JumpIgnoresEpoll(SaveByFd(s, s.table, fd), epoll);
  }

  // ----- the next wait

  /** Nothing can give control to `t`. */
  ghost predicate NoSource(s: State, t: nat) {
    forall src :: !Wakes(s, src, t)
  }

  lemma NoSourceWithEpoll(s: State, epoll: set<int>, t: nat)
    requires NoSource(s, t)
    ensures NoSource(WithEpoll(s, epoll), t)
  {
    forall src ensures !Wakes(WithEpoll(s, epoll), src, t) {
      assert !Wakes(s, src, t);
    }
  }

  lemma WatchedIsBusy(s: State, fd: int)
    requires Agrees(s.table) && fd in s.table.epoll
    ensures EntryOf(s.table, fd).context.Some?
  {
    assert EntryAgrees(s.table, fd);
  }

  lemma BusyStoreKeeps(s: State, fd: int, req: Request)
    requires Agrees(s.table) && ValidRequest(req) && EntryOf(s.table, fd).context.Some?
    ensures Store(s.table, fd, s.next, req, false) == Stored(s.table, true)
  {
    StoreHarmsNoWaiter(s.table, fd, s.next, req, false);
  }

  lemma LostHasNoSource(s: State, t: nat)
    requires Owned(s, |s.frames|, None) && t in s.tasks && IsLost(s, t)
    ensures NoSource(s, t)
  {
    SingleOwner(s, t);
  }

  lemma BusyWaitIsLost(s: State, fd: int, req: Request, t: nat, r: State)
    requires Inv(s) && s.frames != [] && Top(s).task == t && InCall(s.regs.ex)
    requires IsFd(fd) && ValidRequest(req) && EntryOf(s.table, fd).context.Some?
    requires Step(s, DoWait(fd, req, false)) == Ok(r)
    ensures r.table == s.table && t in r.tasks && IsLost(r, t)
  {
    BusyStoreKeeps(s, fd, req);
    WaitEffects(s, fd, req, false, r);
    WaitLoses(s, fd, req, false, r);
  }

  /** A coroutine that waits on a busy descriptor is suspended without a wake source. */
  lemma BusyWaitLoses(s: State, fd: int, req: Request, t: nat) returns (r: State)
    requires Inv(s) && s.frames != [] && Top(s).task == t && InCall(s.regs.ex) && EntryThere(s)
    requires IsFd(fd) && ValidRequest(req) && EntryOf(s.table, fd).context.Some?
    ensures Step(s, DoWait(fd, req, false)) == Ok(r) && r.frames == s.frames[..|s.frames| - 1]
    ensures r.table == s.table && t in r.tasks && NoSource(r, t)
  {
    BusyStoreKeeps(s, fd, req);
    r := LandsInnermost(s, DoWait(fd, req, false));
    BusyWaitIsLost(s, fd, req, t, r);
    LostHasNoSource(r, t);
  }

  lemma ClosedWithEpoll(s: State, fd: int, m: State)
    requires Step(s, DoForeignClose(fd)) == Ok(m)
    ensures m == WithEpoll(s, s.table.epoll - {fd}) && fd !in m.table.epoll
  {
  }

  lemma WaitAllowed(s: State, m: State, fd: int, req: Request, added: bool)
    requires m.frames == s.frames != [] && InCall(s.regs.ex) && m.regs == s.regs
    requires IsFd(fd) && ValidRequest(req) && fd !in m.table.epoll
    ensures Disciplined(m, DoWait(fd, req, added))
  {
  }

  /** After such a close the next wait on the descriptor, made by whatever coroutine runs,
      reports success and suspends; but the kernel watches nothing, the table has recorded
      nothing, and no wake source is left for the coroutine. */
  lemma NextWaitIsLost(s: State, fd: int, m: State, req: Request, added: bool, t: nat) returns (r: State)
    requires Inv(s) && s.frames != [] && Top(s).task == t && InCall(s.regs.ex) && EntryThere(s)
    requires fd in s.table.epoll && IsFd(fd) && Step(s, DoForeignClose(fd)) == Ok(m)
    requires ValidRequest(req)
    ensures Disciplined(m, DoWait(fd, req, added)) && Store(m.table, fd, m.next, req, added).ok
    ensures Step(m, DoWait(fd, req, added)) == Ok(r) && r.frames == s.frames[..|s.frames| - 1]
    ensures fd !in r.table.epoll && r.table == m.table
    ensures t in r.tasks && NoSource(r, t)
  {
    WatchedIsBusy(s, fd);
    var q := BusyWaitLoses(s, fd, req, t);
    r := LostAfterClose(s, fd, m, req, added, t, q);
  }

  lemma LostAfterClose(s: State, fd: int, m: State, req: Request, added: bool, t: nat, q: State) returns (r: State)
    requires Agrees(s.table) && EntryOf(s.table, fd).context.Some? && IsFd(fd) && ValidRequest(req)
    requires s.frames != [] && InCall(s.regs.ex) && Step(s, DoForeignClose(fd)) == Ok(m)
    requires Step(s, DoWait(fd, req, false)) == Ok(q) && q.table == s.table && NoSource(q, t)
    ensures Disciplined(m, DoWait(fd, req, added)) && Store(m.table, fd, m.next, req, added).ok
    ensures Step(m, DoWait(fd, req, added)) == Ok(r) && r.frames == q.frames && r.tasks == q.tasks
    ensures fd !in r.table.epoll && r.table == m.table && NoSource(r, t)
  {
    ClosedWithEpoll(s, fd, m);
    r := LostWithEpoll(s, fd, m, req, added, t, q);
    WaitAllowed(s, m, fd, req, added);
  }

  lemma LostWithEpoll(s: State, fd: int, m: State, req: Request, added: bool, t: nat, q: State) returns (r: State)
    requires Agrees(s.table) && EntryOf(s.table, fd).context.Some? && IsFd(fd)
    requires m == WithEpoll(s, s.table.epoll - {fd}) && Wait(s, fd, req, false) == Ok(q)
    requires q.table == s.table && NoSource(q, t)
    ensures Store(m.table, fd, m.next, req, added).ok
    ensures Wait(m, fd, req, added) == Ok(r) && r.frames == q.frames && r.tasks == q.tasks
    ensures r.table == m.table && NoSource(r, t)
  {
    BusyWaitIgnoresEpoll(s, fd, req, added, s.table.epoll - {fd});
    NoSourceWithEpoll(q, s.table.epoll - {fd}, t);
    r := WithEpoll(q, s.table.epoll - {fd});
  }
}
