/** Every disciplined step of the machine runs without undefined behaviour and keeps the
    invariant. */
module Preservation {
  import opened Options
  import opened Registry
  import opened CidSpec
  import opened Machine
  import opened Invariants
  import opened LeavingSteps
  import opened SavingSteps
  import opened EnteringSteps
  import opened CreatingSteps

  // ----- leaving

  lemma RunningTask(s: State) returns (t: nat)
    requires s.frames != [] && Running(s) && FramesOwned(s, |s.frames|) && CidsIssued(s)
    ensures InCoroutine(s, t) && t in s.tasks && t in s.place && s.place[t] == Active(|s.frames| - 1)
    ensures 1 <= s.tasks[t].cid <= MAX_CID && s.tasks[t].cid - 1 in s.cids.used
  {
    t := Top(s).task;
  }

  /** The state in which a coroutine on its way out has been saved or closed. */
  ghost predicate LeavesBy(s: State, a: Action, m: State) {
    && Leaving(m) && Step(s, a) == Return(m) && m.frames == s.frames
    && m.checkPoint == s.checkPoint && m.jmp == s.jmp && m.regs.vm == s.origin
    && (EntryThere(m) <==> EntryThere(s))
  }

  /** What a yield has saved when it jumps. */
  ghost predicate YieldSaved(s: State, m: State) {
    && s.frames != [] && Top(s).task in s.tasks
    && var t := Top(s).task;
    && s.regs.task == Some(t)
    && m.place == s.place[t := OnCid(s.next)] && m.contexts == s.contexts[s.next := s.regs]
    && m.cidMap == s.cidMap[s.tasks[t].cid := s.next] && m.resumable == s.resumable + {s.tasks[t].cid}
    && m.table == s.table && m.tasks == s.tasks && m.freed == s.freed && m.released == s.released && m.cids == s.cids
    && m.callbacks == s.callbacks
  }

  lemma SameEntry(s: State, m: State)
    requires m.frames == s.frames && m.table == s.table
    ensures EntryThere(m) <==> EntryThere(s)
  {
  }

  lemma YieldStep(s: State) returns (m: State)
    requires Inv(s) && Disciplined(s, DoYield)
    ensures LeavesBy(s, DoYield, m) && YieldSaved(s, m)
  {
    var t := RunningTask(s);
    var saved := SaveByCid(s, t, s.tasks[t].cid);
    m := saved.(regs := s.regs.(vm := s.origin));
    YieldLeaves(s, t, m);
    SameEntry(s, m);
    YieldJumps(s, t, saved);
  }

  lemma YieldJumps(s: State, t: nat, saved: State)
    requires Chain(s) && s.frames != [] && s.regs.task == Some(t) && t in s.tasks
    requires 0 <= s.tasks[t].cid <= MAX_CID && saved == SaveByCid(s, t, s.tasks[t].cid)
    ensures Yield(s) == Return(saved.(regs := s.regs.(vm := s.origin)))
  {
    assert forall d | 0 <= d <= |s.frames| :: BufferAt(saved, d) == BufferAt(s, d);
    JumpIsReturn(saved);
  }

  /** What a wait has saved when it jumps. */
  ghost predicate WaitSaved(s: State, fd: int, r: Table, m: State) {
    && s.frames != []
    && var t := Top(s).task;
    && s.regs.task == Some(t)
    && m.place == s.place[t := PlaceAfterWait(r, fd, s.next)] && m.contexts == s.contexts[s.next := s.regs]
    && m.cidMap == s.cidMap && m.resumable == s.resumable
    && m.table == r && m.tasks == s.tasks && m.freed == s.freed && m.released == s.released && m.cids == s.cids
    && m.callbacks == s.callbacks
  }

  /** A store that succeeds frees no entry, and puts none back at an old address. */
  lemma WaitEntry(s: State, fd: int, req: Request, added: bool, m: State)
    requires EntriesAddressed(s) && Store(s.table, fd, s.next, req, added).ok
    requires m.frames == s.frames && m.table == Store(s.table, fd, s.next, req, added).table
    ensures EntryThere(m) <==> EntryThere(s)
  {
    if s.frames != [] && Top(s).InvokeFrame? {
      StoreAddresses(s.table, fd, s.next, req, added, Top(s).fd, Top(s).entry);
    }
  }

  lemma WaitStep(s: State, fd: int, req: Request, added: bool) returns (m: State)
    requires Inv(s) && Disciplined(s, DoWait(fd, req, added))
    requires Store(s.table, fd, s.next, req, added).ok
    ensures LeavesBy(s, DoWait(fd, req, added), m)
    ensures WaitSaved(s, fd, Store(s.table, fd, s.next, req, added).table, m)
  {
    var t := RunningTask(s);
    var saved := SaveByFd(s, Store(s.table, fd, s.next, req, added).table, fd);
    m := saved.(regs := s.regs.(vm := s.origin));
    WaitLeaves(s, t, fd, req, added, m);
    WaitEntry(s, fd, req, added, m);
    WaitJumps(s, fd, req, added, saved);
  }

  lemma WaitJumps(s: State, fd: int, req: Request, added: bool, saved: State)
    requires Chain(s) && s.frames != [] && IsFd(fd) && Store(s.table, fd, s.next, req, added).ok
    requires saved == SaveByFd(s, Store(s.table, fd, s.next, req, added).table, fd)
    ensures Wait(s, fd, req, added) == Return(saved.(regs := s.regs.(vm := s.origin)))
  {
    assert forall d | 0 <= d <= |s.frames| :: BufferAt(saved, d) == BufferAt(s, d);
    JumpIsReturn(saved);
  }

  /** What an ended coroutine leaves behind. */
  ghost predicate EndSaved(s: State, m: State) {
    && s.frames != [] && Top(s).task in s.tasks
    && var t := Top(s).task;
    && s.regs.task == Some(t)
    && m.place == s.place - {t} && m.contexts == s.contexts
    && m.cidMap == s.cidMap && m.resumable == s.resumable
    && m.table == s.table && m.tasks == s.tasks - {t} && m.freed == s.freed + Owed(s.tasks[t])
    && m.released == s.released
    && m.cids == CidState(s.cids.used - {s.tasks[t].cid - 1}, s.cids.last)
    && m.callbacks == s.callbacks
  }

  lemma Closed(s: State, t: nat) returns (m: State)
    requires s.frames != [] && Top(s).task == t && s.regs.task == Some(t) && t in s.tasks
    requires 1 <= s.tasks[t].cid <= MAX_CID && s.tasks[t].cid - 1 in s.cids.used && TaskCallbacks(s)
    ensures ClosedAs(s, m, t) && End(s) == Return(m) && EndSaved(s, m)
    ensures m.frames == s.frames && m.checkPoint == s.checkPoint && m.jmp == s.jmp && m.regs.vm == s.origin
  {
    m := CloseTask(s, t);
  }

  lemma EndStep(s: State) returns (m: State)
    requires Inv(s) && Disciplined(s, DoEnd)
    ensures LeavesBy(s, DoEnd, m) && EndSaved(s, m)
  {
    var t := RunningTask(s);
    m := Closed(s, t);
    EndLeaves(s, t, m);
    SameEntry(s, m);
  }

  /** The same, seen from outside: the coroutine is still current unless it ended, and
      callbacks are as before, except that an ended coroutine has had its own freed. */
  ghost predicate GoesOut(s: State, a: Action, m: State) {
    && m.frames == s.frames && s.frames != [] && Top(s).task in s.tasks && m.callbacks == s.callbacks
    && CanReturn(m) && FrameCallbacks(m) && TaskCallbacks(m) && Step(s, a) == Return(m)
    && var t := Top(s).task;
    if a.DoEnd? then m.regs.task == None && m.tasks == s.tasks - {t} && m.freed == s.freed + Owed(s.tasks[t])
    else m.regs.task == Some(t) && m.tasks == s.tasks && m.freed == s.freed
  }

  lemma YieldOut(s: State) returns (m: State)
    requires Inv(s) && Disciplined(s, DoYield)
    ensures LeavesBy(s, DoYield, m) && GoesOut(s, DoYield, m)
  {
    m := YieldStep(s);
    LeavingCanReturn(m);
  }

  lemma EndOut(s: State) returns (m: State)
    requires Inv(s) && Disciplined(s, DoEnd)
    ensures LeavesBy(s, DoEnd, m) && GoesOut(s, DoEnd, m)
  {
    m := EndStep(s);
    LeavingCanReturn(m);
  }

  lemma WaitOut(s: State, a: Action) returns (m: State)
    requires Inv(s) && a.DoWait? && Disciplined(s, a) && Leaves(s, a)
    ensures LeavesBy(s, a, m) && GoesOut(s, a, m)
  {
    var t := RunningTask(s);
    m := WaitStep(s, a.fd, a.req, a.added);
    LeavingCanReturn(m);
  }

  /** Every way out of a coroutine. */
  lemma WayOut(s: State, a: Action) returns (m: State)
    requires Inv(s) && Disciplined(s, a) && Leaves(s, a)
    ensures LeavesBy(s, a, m) && GoesOut(s, a, m)
  {
    match a
    case DoYield => m := YieldOut(s);
    case DoEnd => m := EndOut(s);
    case DoWait(_, _, _) => m := WaitOut(s, a);
  }

  // ----- staying

  lemma RefusedStore(s: State, fd: int, req: Request, added: bool, r: State)
    requires Inv(s) && Disciplined(s, DoWait(fd, req, added))
    requires !Store(s.table, fd, s.next, req, added).ok && Wait(s, fd, req, added) == Ok(r)
    ensures Inv(r)
  {
    StoreHarmsNoWaiter(s.table, fd, s.next, req, added);
    StoreAgrees(s.table, fd, s.next, req, added);
    StoreAddressed(s.table, fd, s.next, req, added);
    assert EntryOf(s.table, fd).context.None?;
    StayOwned(s, r, fd);
    StayCore(s, r);
    StayCallbacks(s, r);
  }

  /** Only the table, the counter of pointers and the release history may differ. */
  ghost predicate StaysAs(s: State, r: State) {
    && r == s.(table := r.table, next := r.next, released := r.released, regs := r.regs)
    && r.regs.task == s.regs.task && r.next >= s.next
    && (r.released == s.released || (r.released == s.released + multiset{s.next} && r.next > s.next))
  }

  lemma StayOwned(s: State, r: State, fd: int)
    requires StaysAs(s, r) && Owned(s, |s.frames|, None)
    requires r.table == s.table ||
             (EntryOf(s.table, fd).context.None? && r.table.events == s.table.events - {fd})
    ensures Owned(r, |r.frames|, None)
  {
    var n := |s.frames|;
    forall u | u in r.place ensures OwnsContext(r, n, None, u) {
      assert OwnsContext(s, n, None, u);
    }
    forall c | c in r.contexts ensures ContextHeld(r, n, c) {
      assert ContextHeld(s, n, c);
    }
    forall x | x in r.table.events && r.table.events[x].context.Some?
      ensures WaiterHolds(r, x, r.table.events[x].context.value)
    {
      assert WaiterHolds(s, x, s.table.events[x].context.value);
    }
    StayCids(s, r);
  }

  lemma StayCids(s: State, r: State)
    requires r == s.(table := r.table, next := r.next, released := r.released, regs := r.regs, place := r.place)
    requires CidsOwned(s, None) && r.place.Keys == s.place.Keys
    requires forall u | u in s.place ::
               if s.place[u].OnFd? then !r.place[u].OnCid? else r.place[u] == s.place[u]
    ensures CidsOwned(r, None)
  {
  }

  lemma StayChain(s: State, r: State)
    requires StaysAs(s, r) && Chain(s) && Saved(s)
    ensures Chain(r) && Saved(r)
  {
    assert forall d | 0 <= d <= |s.frames| :: BufferAt(r, d) == BufferAt(s, d);
  }

  lemma StayWoken(s: State, r: State)
    requires StaysAs(s, r) && PointersBelow(s) && WokenOnce(s)
    ensures PointersBelow(r) && WokenOnce(r)
  {
    assert s.next !in s.released && s.next !in s.contexts;
  }

  lemma StayCore(s: State, r: State)
    requires StaysAs(s, r)
    requires PointersBelow(s) && Chain(s) && Saved(s) && Counted(s) && CidsIssued(s) && WokenOnce(s)
    ensures PointersBelow(r) && Chain(r) && Saved(r) && Counted(r) && CidsIssued(r) && WokenOnce(r)
  {
    StayChain(s, r);
    StayWoken(s, r);
  }

  lemma StayCallbacks(s: State, r: State)
    requires r.frames == s.frames && r.tasks == s.tasks && r.callbacks == s.callbacks && r.freed == s.freed
    requires r.refused == s.refused && CallbacksHeld(s)
    ensures CallbacksHeld(r)
  {
  }

  lemma RunKeeps(s: State, vm: Vm, ex: Exec, r: State)
    requires Inv(s) && r == s.(regs := s.regs.(vm := vm, ex := ex))
    ensures Inv(r)
  {
    StayOwned(s, r, 0);
    StayCore(s, r);
    StayCallbacks(s, r);
  }

  // ----- closing a descriptor

  ghost predicate ForgotAs(s: State, r: State, fd: int, c: nat, t: nat) {
    && t in s.place && s.place[t] == OnFd(fd, c) && Belongs(s, c, t) && EntryOf(s.table, fd).context == Some(c)
    && r == s.(table := Registry.Free(s.table, fd), place := s.place[t := Lost(c)])
  }

  lemma ForgetContexts(s: State, r: State, fd: int, c: nat, t: nat)
    requires ForgotAs(s, r, fd, c, t) && FramesOwned(s, |s.frames|) && ContextsOwned(s, |s.frames|, None)
    ensures FramesOwned(r, |r.frames|) && ContextsOwned(r, |r.frames|, None)
  {
  }

  lemma ForgetFds(s: State, r: State, fd: int, c: nat, t: nat)
    requires ForgotAs(s, r, fd, c, t) && FdsOwned(s)
    requires forall u | u in s.place && s.place[u].OnFd? && s.place[u].fd == fd :: u == t
    ensures FdsOwned(r)
  {
  }

  lemma ForgetOwned(s: State, r: State, fd: int, c: nat, t: nat)
    requires ForgotAs(s, r, fd, c, t) && Owned(s, |s.frames|, None)
    ensures Owned(r, |r.frames|, None)
  {
    forall u | u in s.place && s.place[u].OnFd? && s.place[u].fd == fd ensures u == t {
      OneWaiterPerEntry(s, fd, t, u);
    }
    ForgetContexts(s, r, fd, c, t);
    ForgetFds(s, r, fd, c, t);
    StayCids(s, r);
  }

  lemma ForgetChain(s: State, r: State, fd: int, c: nat, t: nat)
    requires ForgotAs(s, r, fd, c, t) && Chain(s) && Saved(s)
    ensures Chain(r) && Saved(r)
  {
    assert forall d | 0 <= d <= |s.frames| :: BufferAt(r, d) == BufferAt(s, d);
  }

  lemma ForgetCore(s: State, r: State, fd: int, c: nat, t: nat)
    requires ForgotAs(s, r, fd, c, t)
    requires PointersBelow(s) && Chain(s) && Saved(s) && Counted(s) && CidsIssued(s) && WokenOnce(s)
    ensures PointersBelow(r) && Chain(r) && Saved(r) && Counted(r) && CidsIssued(r) && WokenOnce(r)
  {
    ForgetChain(s, r, fd, c, t);
  }

  lemma ForgetEntries(s: State, r: State, fd: int, c: nat, t: nat)
    requires ForgotAs(s, r, fd, c, t) && EntriesAddressed(s)
    ensures EntriesAddressed(r)
  {
    FreeAddresses(s.table, fd);
  }

  lemma Forgotten(s: State, fd: int, c: nat, t: nat) returns (r: State)
    requires IsFd(fd) && Agrees(s.table) && EntryOf(s.table, fd).context == Some(c)
    requires Belongs(s, c, t) && t in s.place && s.place[t] == OnFd(fd, c)
    ensures SocketClose(s, fd) == Ok(r) && ForgotAs(s, r, fd, c, t) && Agrees(r.table)
  {
    FreeAgrees(s.table, fd);
    r := SocketClose(s, fd).state;
  }

  lemma ForgottenKeeps(s: State, r: State, fd: int, c: nat, t: nat)
    requires Inv(s) && ForgotAs(s, r, fd, c, t) && Agrees(r.table)
    ensures Inv(r)
  {
    ForgetOwned(s, r, fd, c, t);
    ForgetCore(s, r, fd, c, t);
    ForgetEntries(s, r, fd, c, t);
    StayCallbacks(s, r);
  }

  lemma CloseKeeps(s: State, fd: int)
    requires Inv(s) && Disciplined(s, DoSocketClose(fd))
    ensures SocketClose(s, fd).Ok? && Inv(SocketClose(s, fd).state)
  {
    match EntryOf(s.table, fd).context
    case Some(c) =>
      assert WaiterHolds(s, fd, c);
      var t := s.contexts[c].task.value;
      var r := Forgotten(s, fd, c, t);
      ForgottenKeeps(s, r, fd, c, t);
    case None =>
      FreeAgrees(s.table, fd);
      assert SocketClose(s, fd) == Ok(s);
  }

  // ----- every step

  lemma LeaveKeeps(s: State, a: Action, m: State) returns (r: State)
    requires LeavesBy(s, a, m) && EntryThere(s)
    ensures Step(s, a) == Ok(r) && Inv(r) && Popped(m, r) && Restored(m, r)
  {
    ReturnKeeps(m);
    r := Return(m).state;
  }

  lemma LeaveStep(s: State, a: Action) returns (r: State)
    requires Inv(s) && Disciplined(s, a) && Leaves(s, a) && EntryThere(s)
    ensures Step(s, a) == Ok(r) && Inv(r)
  {
    var m := WayOut(s, a);
    r := LeaveKeeps(s, a, m);
  }

  lemma EnterStep(s: State, a: Action) returns (r: State)
    requires Inv(s) && Disciplined(s, a) && IdLeft(s, a) && !HitsDeadTask(s, a)
    requires a.DoCreate? || a.DoResume? || a.DoDispatch?
    ensures Step(s, a) == Ok(r) && Inv(r)
  {
    match a {
      case DoCreate(vm, ex, retPtr) =>
        CreateKeeps(s, vm, ex, retPtr);
      case DoResume(cid) =>
        ResumeKeeps(s, cid);
      case DoDispatch(fd) =>
        DispatchKeeps(s, fd);
    }
    r := Step(s, a).state;
  }

  /** Closing a descriptor the kernel does not watch changes nothing. */
  lemma UnwatchedClose(s: State, fd: int)
    requires fd !in s.table.epoll
    ensures Step(s, DoForeignClose(fd)) == Ok(s)
  {
    assert s.table.epoll - {fd} == s.table.epoll;
  }

  lemma StayStep(s: State, a: Action) returns (r: State)
    requires Inv(s) && Disciplined(s, a)
    requires !Leaves(s, a) && (a.DoWait? || a.DoSocketClose? || a.DoForeignClose? || a.DoRun?)
    ensures Step(s, a) == Ok(r) && Inv(r)
  {
    match a {
      case DoWait(fd, req, added) =>
        RefusedStore(s, fd, req, added, Wait(s, fd, req, added).state);
      case DoSocketClose(fd) =>
        CloseKeeps(s, fd);
      case DoForeignClose(fd) =>
        UnwatchedClose(s, fd);
      case DoRun(vm, ex) =>
        RunKeeps(s, vm, ex, Step(s, a).state);
    }
    r := Step(s, a).state;
  }

  /** A disciplined step with an id left to allocate is free of undefined behaviour and
      keeps the invariant, unless it is a create at the cap that hits a dead task, or ends
      a dispatch whose entry has been freed. */
  lemma StepKeeps(s: State, a: Action) returns (r: State)
    requires Inv(s) && Disciplined(s, a) && IdLeft(s, a) && !GoesWrong(s, a)
    ensures Step(s, a) == Ok(r) && Inv(r)
  {
    if Leaves(s, a) {
      r := LeaveStep(s, a);
    } else if a.DoCreate? || a.DoResume? || a.DoDispatch? {
      r := EnterStep(s, a);
    } else {
      r := StayStep(s, a);
    }
  }

  /** The exact condition: a disciplined step with an id left runs into undefined
      behaviour if and only if it is a create at the cap, in main, while `current_coro`
      points to a task that has ended, or ends a dispatch whose entry has been freed. */
  lemma StepFaultsIff(s: State, a: Action)
    requires Inv(s) && Disciplined(s, a) && IdLeft(s, a)
    ensures Step(s, a).Fault? <==> GoesWrong(s, a)
    ensures HitsDeadTask(s, a) ==> s.frames == []
    ensures Step(s, a).Ok? ==> Inv(Step(s, a).state)
  {
    if HitsDeadTask(s, a) {
      DeadTaskFaults(s, a.vm, a.ex, a.retPtr);
    } else if ReadsFreedEntry(s, a) {
      FreedEntryFaults(s, a);
    } else {
      var r := StepKeeps(s, a);
    }
  }

  lemma FreedEntryFaults(s: State, a: Action)
    requires Inv(s) && Disciplined(s, a) && ReadsFreedEntry(s, a)
    ensures Step(s, a).Fault?
  {
    var m := WayOut(s, a);
    ReturnCases(m);
  }

  lemma LeftEntryThere(s: State, a: Action, m: State)
    requires LeavesBy(s, a, m) && CanReturn(m) && Step(s, a).Ok?
    ensures EntryThere(s)
  {
    ReturnCases(m);
  }

  lemma DeadTaskFaults(s: State, vm: Vm, ex: Exec, retPtr: nat)
    requires WellFormed(s.cids) && NrFree(s.cids) > 0 && HitsDeadTask(s, DoCreate(vm, ex, retPtr))
    requires Running(s) && FramesOwned(s, |s.frames|)
    ensures Create(s, vm, ex, retPtr).Fault? && s.frames == []
  {
    AllocTakes(s);
  }
}
