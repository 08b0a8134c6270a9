/** Runs from `coro_init` on into each of the cases the exact conditions speak of. */
module Witnesses {
  import opened Options
  import opened Registry
  import opened CidSpec
  import opened Machine
  import opened Invariants
  import opened LeavingSteps
  import opened EnteringSteps
  import opened CreatingSteps
  import opened Preservation
  import opened Runs
  import opened Nesting
  import opened Effects
  import opened Ownership
  import opened ForeignCloses
  import opened Wakeups
  import opened Callbacks
  import opened MainTasks
  import opened Limits

  // ----- a lost callback

  /** A refused create inside a coroutine leaves its callback with that coroutine. */
  lemma RefuseInside(s: State) returns (r: State)
    requires Inv(s) && s.frames != [] && AtCap(s) && NrFree(s.cids) > 0
    ensures Step(s, CREATE) == Ok(r) && Inv(r) && r.frames == s.frames && r.regs == s.regs
    ensures TaskHolds(r, Top(s).task, s.next)
  {
    CreateKeeps(s, STACK, CALL, 0);
    r := Create(s, STACK, CALL, 0).state;
    RefusedInside(s, r);
  }

  lemma RefusedInside(s: State, r: State)
    requires WellFormed(s.cids) && NrFree(s.cids) > 0 && AtCap(s) && Create(s, STACK, CALL, 0) == Ok(r)
    requires s.frames != [] && Running(s)
    ensures r.frames == s.frames && r.regs == s.regs && TaskHolds(r, Top(s).task, s.next)
  {
    CreateRefused(s, STACK, CALL, 0, r);
  }

  lemma YieldLoses(s: State, k: nat) returns (r: State)
    requires Inv(s) && s.frames != [] && InCall(s.regs.ex) && SettlesOver(s, k)
    ensures Step(s, DoYield) == Ok(r) && Leaked(r, k)
  {
    r := LandsInnermost(s, DoYield);
    StepLeaks(s, DoYield, r);
  }

  /** For every cap a run loses a callback copy: the last coroutine under the cap makes a
      create, which is refused, and yields. */
  lemma LosesCallback(max: int) returns (ss: seq<State>, acts: seq<Action>, s: State, k: nat)
    requires 1 <= max < IDS
    ensures RunTo(ss, acts, s) && s.maxCoroNum == max && Leaked(s, k)
  {
    var start := FromInit(max);
    ss, acts, s := FillUp([start], [], start, max - 1);
    Conserved(s);
    var r := CreateInside(s);
    Conserved(r);
    var q := RefuseInside(r);
    k := r.next;
    var e := YieldLoses(q, k);
    StepCounters(r, CREATE, q);
    StepCounters(q, DoYield, e);
    ss, acts := Extend(ss, acts, s, CREATE, r);
    ss, acts := Extend(ss, acts, r, CREATE, q);
    ss, acts := Extend(ss, acts, q, DoYield, e);
    s := e;
  }

  // ----- a dead task in main

  const READ: Request := Request(FD_NORMAL, 1, None, None, 0, None)
  const RUN: Action := DoRun(STACK, CALL)

  /** `t` yielded under its cid, and `current_coro` still points to it in main. */
  ghost predicate Lingers(s: State, t: nat) {
    && s.frames == [] && s.regs.task == Some(t)
    && t in s.tasks && s.tasks[t].cid in s.resumable && 0 <= s.tasks[t].cid <= MAX_CID
    && s.tasks[t].cid in s.cidMap && Belongs(s, s.cidMap[s.tasks[t].cid], t)
  }

  lemma WaitInside(s: State, fd: int) returns (r: State, c: nat)
    requires Inv(s) && |s.frames| == 1 && Top(s).CreateFrame? && InCall(s.regs.ex)
    requires IsFd(fd) && s.table == EMPTY_TABLE
    ensures Disciplined(s, DoWait(fd, READ, true)) && Step(s, DoWait(fd, READ, true)) == Ok(r)
    ensures Inv(r) && r.frames == [] && EntryOf(r.table, fd).context == Some(c)
  {
    r := LandsInnermost(s, DoWait(fd, READ, true));
    WaitEffects(s, fd, READ, true, r);
    c := s.next;
  }

  lemma IdleAfterWake(s: State, fd: int, r: State)
    requires Inv(s) && s.frames == [] && IsFd(fd) && Dispatch(s, fd) == Ok(r)
    ensures EntryOf(r.table, fd).context.None?
  {
    DispatchEffects(s, fd, r);
    FreeAgrees(s.table, fd);
  }

  /** A coroutine was woken by a dispatch of `fd`. */
  ghost predicate WokenOn(s: State, fd: int) {
    && |s.frames| == 1 && s.frames[0].InvokeFrame? && s.frames[0].fd == fd
    && EntryThere(s) && EntryOf(s.table, fd).context.None?
  }

  /** And is about to make a call. */
  ghost predicate AwakeOn(s: State, fd: int) {
    WokenOn(s, fd) && InCall(s.regs.ex)
  }

  lemma WokenFrames(s: State, fd: int, c: nat, r: State)
    requires DispatchEffect(s, fd, r) && s.frames == [] && EntryOf(s.table, fd).context == Some(c)
    requires Step(s, DoDispatch(fd)) == Ok(r) && Addressed(s.table) && EntryOf(r.table, fd).context.None?
    ensures WokenOn(r, fd)
  {
    DispatchCalls(s, fd, r);
  }

  lemma Woken(s: State, fd: int, c: nat) returns (r: State)
    requires Inv(s) && s.frames == [] && IsFd(fd) && EntryOf(s.table, fd).context == Some(c)
    ensures Step(s, DoDispatch(fd)) == Ok(r) && Inv(r) && WokenOn(r, fd)
  {
    DispatchKeeps(s, fd);
    r := Dispatch(s, fd).state;
    DispatchEffects(s, fd, r);
    IdleAfterWake(s, fd, r);
    WokenFrames(s, fd, c, r);
  }

  /** The running code goes on to its next call. */
  lemma RunOn(s: State) returns (r: State)
    requires Inv(s)
    ensures Disciplined(s, RUN) && Step(s, RUN) == Ok(r) && Inv(r) && InCall(r.regs.ex)
    ensures r.frames == s.frames && r.table == s.table && r.cidMap == s.cidMap && r.resumable == s.resumable
  {
    r := s.(regs := s.regs.(vm := STACK, ex := CALL));
    RunKeeps(s, STACK, CALL, r);
  }

  lemma Wake(s: State, fd: int, c: nat) returns (r: State, q: State)
    requires Inv(s) && s.frames == [] && IsFd(fd) && EntryOf(s.table, fd).context == Some(c)
    ensures Step(s, DoDispatch(fd)) == Ok(r) && Step(r, RUN) == Ok(q) && Inv(q) && AwakeOn(q, fd)
  {
    r := Woken(s, fd, c);
    q := RunOn(r);
    AwakeAfterRun(r, q, fd);
  }

  lemma AwakeAfterRun(r: State, q: State, fd: int)
    requires WokenOn(r, fd) && q.frames == r.frames && q.table == r.table && InCall(q.regs.ex)
    ensures AwakeOn(q, fd)
  {
    SameEntry(r, q);
  }

  lemma YieldedLingers(s: State, r: State, t: nat)
    requires YieldEffect(s, r) && Top(s).task == t && r.regs.task == Some(t) && r.frames == []
    requires FramesOwned(s, |s.frames|) && CidsIssued(s) && PointersBelow(s)
    requires ContextOf(Top(s)) != Some(s.next)
    ensures Lingers(r, t)
  {
  }

  lemma YieldLingers(s: State) returns (r: State)
    requires Inv(s) && |s.frames| == 1 && s.frames[0].InvokeFrame? && InCall(s.regs.ex) && EntryThere(s)
    ensures Step(s, DoYield) == Ok(r) && Inv(r) && Lingers(r, s.frames[0].task)
  {
    r := YieldsToMain(s);
    YieldEffects(s, r);
    TopBelow(s);
    YieldedLingers(s, r, s.frames[0].task);
  }

  lemma YieldsToMain(s: State) returns (r: State)
    requires Inv(s) && |s.frames| == 1 && s.frames[0].InvokeFrame? && InCall(s.regs.ex) && EntryThere(s)
    ensures Step(s, DoYield) == Ok(r) && Inv(r) && r.frames == [] && r.regs.task == Some(s.frames[0].task)
  {
    r := LandsInnermost(s, DoYield);
    StepMoves(s, DoYield, r);
    assert MainHas(s, None);
  }

  lemma EndAfterResume(s: State, t: nat) returns (r: State, e: State)
    requires Inv(s) && Lingers(s, t)
    ensures Disciplined(s, DoResume(s.tasks[t].cid)) && Step(s, DoResume(s.tasks[t].cid)) == Ok(r)
    ensures Disciplined(r, DoEnd) && Step(r, DoEnd) == Ok(e)
    ensures Inv(e) && e.frames == [] && e.regs.task == Some(t) && EndsTask(r, DoEnd, t)
  {
    var cid := s.tasks[t].cid;
    ResumeKeeps(s, cid);
    r := Resume(s, cid).state;
    ResumeEffects(s, cid, r);
    ResumeCalls(s, cid, r);
    e := LandsInnermost(r, DoEnd);
  }

  /** From `coro_init` to a coroutine that waits on a descriptor. */
  lemma Waiting(max: int, fd: int) returns (ss: seq<State>, acts: seq<Action>, s: State, c: nat)
    requires 1 <= max < IDS && IsFd(fd)
    ensures RunTo(ss, acts, s) && Inv(s) && s.frames == [] && EntryOf(s.table, fd).context == Some(c)
    ensures s.coroNum <= 1 && s.refused == 0 && s.maxCoroNum == max
  {
    var s0 := FromInit(max);
    Conserved(s0);
    var s1 := CreateInside(s0);
    CreateEffects(s0, CREATE, s1);
    s, c := WaitInside(s1, fd);
    StepCounters(s1, DoWait(fd, READ, true), s);
    ss, acts := Extend([s0], [], s0, CREATE, s1);
    ss, acts := Extend(ss, acts, s1, DoWait(fd, READ, true), s);
  }

  lemma WakeCounters(s: State, fd: int, r: State, q: State)
    requires Step(s, DoDispatch(fd)) == Ok(r) && Step(r, RUN) == Ok(q)
    ensures q.coroNum <= s.coroNum && q.refused == s.refused && q.maxCoroNum == s.maxCoroNum
  {
    StepCounters(s, DoDispatch(fd), r);
    StepCounters(r, RUN, q);
  }

  /** And on to where it was woken by the event loop. */
  lemma Waking(max: int, fd: int) returns (ss: seq<State>, acts: seq<Action>, s: State)
    requires 1 <= max < IDS && IsFd(fd)
    ensures RunTo(ss, acts, s) && Inv(s) && AwakeOn(s, fd)
    ensures s.coroNum <= 1 && s.refused == 0 && s.maxCoroNum == max
  {
    var s1, c;
    ss, acts, s1, c := Waiting(max, fd);
    var s2;
    s2, s := Wake(s1, fd, c);
    WakeCounters(s1, fd, s2, s);
    ss, acts := Extend(ss, acts, s1, DoDispatch(fd), s2);
    ss, acts := Extend(ss, acts, s2, RUN, s);
  }

  /** And on to where it yielded. */
  lemma Lingering(max: int) returns (ss: seq<State>, acts: seq<Action>, s: State, t: nat)
    requires 1 <= max < IDS
    ensures RunTo(ss, acts, s) && Inv(s) && Lingers(s, t)
    ensures s.coroNum <= 1 && s.refused == 0 && s.maxCoroNum == max
  {
    var s1;
    ss, acts, s1 := Waking(max, 5);
    s := YieldLingers(s1);
    t := s1.frames[0].task;
    StepCounters(s1, DoYield, s);
    ss, acts := Extend(ss, acts, s1, DoYield, s);
  }

  /** And on to where main has resumed it and it ended. */
  lemma Dangling(max: int) returns (ss: seq<State>, acts: seq<Action>, s: State, n: nat, t: nat)
    requires 1 <= max < IDS
    ensures RunTo(ss, acts, s) && Inv(s) && s.frames == [] && s.regs.task == Some(t)
    ensures n < |acts| && EndsTask(ss[n], acts[n], t)
    ensures s.coroNum <= 1 && s.refused == 0 && s.maxCoroNum == max
  {
    var s0;
    ss, acts, s0, t := Lingering(max);
    var resume := DoResume(s0.tasks[t].cid);
    var r;
    r, s := EndAfterResume(s0, t);
    StepCounters(s0, resume, r);
    StepCounters(r, DoEnd, s);
    n := |acts| + 1;
    ss, acts := Extend(ss, acts, s0, resume, r);
    ss, acts := Extend(ss, acts, r, DoEnd, s);
  }

  /** For every cap a run ends in undefined behaviour: a coroutine is woken by the event
      loop and yields, main resumes it and it ends, main fills up to the cap, and the next
      create uses the task that is gone. */
  lemma FaultsAtCap(max: int) returns (ss: seq<State>, acts: seq<Action>, s: State)
    requires 1 <= max < IDS
    ensures RunTo(ss, acts, s) && s.maxCoroNum == max
    ensures Disciplined(s, CREATE) && IdLeft(s, CREATE) && Step(s, CREATE).Fault?
  {
    var ss0, acts0, s0, n, t := Dangling(max);
    ss, acts, s := FillUp(ss0, acts0, s0, max);
    assert ss[n] == ss0[n] && acts[n] == acts0[n];
    EndedIsGone(ss, acts, n, |acts|, t);
    Conserved(s);
    StepFaultsIff(s, CREATE);
  }

  // ----- a freed entry

  /** A wait on the dispatched descriptor that the kernel refuses frees the entry. */
  lemma RefusedInDispatch(s: State, fd: int) returns (r: State)
    requires Inv(s) && AwakeOn(s, fd) && IsFd(fd)
    ensures Disciplined(s, DoWait(fd, READ, false)) && Step(s, DoWait(fd, READ, false)) == Ok(r)
    ensures Inv(r) && r.frames == s.frames && InCall(r.regs.ex) && !EntryThere(r)
  {
    r := RefusedWait(s, fd);
    RefusedStore(s, fd, READ, false, r);
    EntryGone(r, fd);
  }

  lemma RefusedWait(s: State, fd: int) returns (r: State)
    requires IsFd(fd) && Agrees(s.table) && EntryOf(s.table, fd).context.None?
    ensures !Store(s.table, fd, s.next, READ, false).ok && Wait(s, fd, READ, false) == Ok(r)
    ensures r.frames == s.frames && r.regs == s.regs && fd !in r.table.events
  {
    StoreHarmsNoWaiter(s.table, fd, s.next, READ, false);
    r := Wait(s, fd, READ, false).state;
  }

  lemma EntryGone(s: State, fd: int)
    requires |s.frames| == 1 && s.frames[0].InvokeFrame? && s.frames[0].fd == fd && fd !in s.table.events
    ensures !EntryThere(s)
  {
  }

  lemma YieldFaults(s: State)
    requires Inv(s) && s.frames != [] && InCall(s.regs.ex) && !EntryThere(s)
    ensures Disciplined(s, DoYield) && Step(s, DoYield).Fault?
  {
    FreedEntryFaults(s, DoYield);
  }

  /** For every cap a run reads a freed entry: a coroutine that was woken by a dispatch of
      its descriptor waits on it again, the kernel refuses that, and it yields. */
  lemma FaultsAfterRefusedWait(max: int) returns (ss: seq<State>, acts: seq<Action>, s: State)
    requires 1 <= max < IDS
    ensures RunTo(ss, acts, s) && s.maxCoroNum == max
    ensures Disciplined(s, DoYield) && Step(s, DoYield).Fault?
  {
    var s1;
    ss, acts, s1 := Waking(max, 5);
    s := RefusedInDispatch(s1, 5);
    StepCounters(s1, DoWait(5, READ, false), s);
    ss, acts := Extend(ss, acts, s1, DoWait(5, READ, false), s);
    YieldFaults(s);
  }

  // ----- a lost waiter

  /** A coroutine that waits on a busy descriptor is suspended and held by nobody. */
  lemma WaitsOnBusy(s: State, fd: int, t: nat) returns (r: State)
    requires Inv(s) && |s.frames| == 1 && Top(s).CreateFrame? && Top(s).task == t && InCall(s.regs.ex)
    requires IsFd(fd) && EntryOf(s.table, fd).context.Some?
    ensures Disciplined(s, DoWait(fd, READ, false)) && Step(s, DoWait(fd, READ, false)) == Ok(r)
    ensures IsLost(r, t) && LosingStep(s, DoWait(fd, READ, false), t)
  {
    StoreHarmsNoWaiter(s.table, fd, s.next, READ, false);
    r := LandsInnermost(s, DoWait(fd, READ, false));
    WaitEffects(s, fd, READ, false, r);
    WaitLoses(s, fd, READ, false, r);
  }

  /** From `coro_init` to where one coroutine waits on `fd` and another one, `t`, runs. */
  lemma SecondRuns(max: int, fd: int) returns (ss: seq<State>, acts: seq<Action>, s: State, t: nat)
    requires 2 <= max < IDS && IsFd(fd)
    ensures RunTo(ss, acts, s) && Inv(s) && s.maxCoroNum == max && EntryOf(s.table, fd).context.Some?
    ensures |s.frames| == 1 && Top(s).CreateFrame? && Top(s).task == t && InCall(s.regs.ex)
  {
    var s1, c;
    ss, acts, s1, c := Waiting(max, fd);
    Conserved(s1);
    s := CreateInside(s1);
    CreateEffects(s1, CREATE, s);
    t := Top(s).task;
    ss, acts := Extend(ss, acts, s1, CREATE, s);
  }

  /** For every cap of two or more a run loses a waiter: two coroutines wait on one descriptor. */
  lemma LosesWaiter(max: int) returns (ss: seq<State>, acts: seq<Action>, s: State, t: nat)
    requires 2 <= max < IDS
    ensures RunTo(ss, acts, s) && s.maxCoroNum == max && IsLost(s, t)
  {
    var s1;
    ss, acts, s1, t := SecondRuns(max, 5);
    s := WaitsOnBusy(s1, 5, t);
    StepCounters(s1, DoWait(5, READ, false), s);
    ss, acts := Extend(ss, acts, s1, DoWait(5, READ, false), s);
  }

  // ----- a cid resumed twice

  /** `cid` was resumed, and the context it was resumed from is freed. */
  ghost predicate Stale(s: State, cid: int) {
    0 <= cid <= MAX_CID && cid in s.cidMap && cid !in s.resumable && s.cidMap[cid] !in s.contexts
  }

  lemma StaleFaults(s: State, cid: int)
    requires Stale(s, cid)
    ensures Step(s, DoResume(cid)).Fault?
  {
  }

  /** A coroutine is created from main and yields under its cid. */
  lemma YieldUnderCid(s: State) returns (r: State, e: State, cid: int)
    requires Inv(s) && s.frames == [] && !AtCap(s) && NrFree(s.cids) > 0
    ensures Step(s, CREATE) == Ok(r) && Disciplined(r, DoYield) && Step(r, DoYield) == Ok(e)
    ensures Inv(e) && e.frames == [] && 0 <= cid <= MAX_CID && cid in e.resumable && cid in e.cidMap
    ensures e.table == s.table && r.maxCoroNum == s.maxCoroNum && e.maxCoroNum == s.maxCoroNum
  {
    r := CreateInside(s);
    CreateEffects(s, CREATE, r);
    e := LandsInnermost(r, DoYield);
    YieldEffects(r, e);
    StepCounters(r, DoYield, e);
    cid := r.tasks[Top(r).task].cid;
  }

  lemma ResumeFromMain(s: State, cid: int) returns (r: State, c: nat)
    requires Inv(s) && s.frames == [] && 0 <= cid <= MAX_CID && cid in s.resumable && cid in s.cidMap
    ensures Step(s, DoResume(cid)) == Ok(r) && Inv(r) && |r.frames| == 1 && r.frames[0].ResumeFrame?
    ensures ContextOf(r.frames[0]) == Some(c) && cid in r.cidMap && r.cidMap[cid] == c && cid !in r.resumable
    ensures r.table == s.table
  {
    c := s.cidMap[cid];
    ResumeKeeps(s, cid);
    r := Resume(s, cid).state;
    ResumeEffects(s, cid, r);
    ResumeCalls(s, cid, r);
  }

  lemma StaleAfterEnd(s: State, cid: int, c: nat) returns (r: State)
    requires Inv(s) && |s.frames| == 1 && s.frames[0].ResumeFrame? && ContextOf(s.frames[0]) == Some(c)
    requires 0 <= cid <= MAX_CID && cid in s.cidMap && s.cidMap[cid] == c && cid !in s.resumable
    ensures Disciplined(s, DoEnd) && Step(s, DoEnd) == Ok(r) && Stale(r, cid)
  {
    r := LandsInnermost(s, DoEnd);
    EndEffects(s, r);
  }

  lemma StaleAfterWait(s: State, cid: int, c: nat, fd: int) returns (r: State)
    requires Inv(s) && |s.frames| == 1 && s.frames[0].ResumeFrame? && ContextOf(s.frames[0]) == Some(c)
    requires 0 <= cid <= MAX_CID && cid in s.cidMap && s.cidMap[cid] == c && cid !in s.resumable
    requires InCall(s.regs.ex) && IsFd(fd) && s.table == EMPTY_TABLE
    ensures Disciplined(s, DoWait(fd, READ, true)) && Step(s, DoWait(fd, READ, true)) == Ok(r) && Stale(r, cid)
  {
    r := LandsInnermost(s, DoWait(fd, READ, true));
    WaitEffects(s, fd, READ, true, r);
    TopBelow(s);
  }

  /** From `coro_init` to a coroutine that yielded and that main has resumed. */
  lemma Resumed(max: int) returns (ss: seq<State>, acts: seq<Action>, s: State, cid: int, c: nat)
    requires 1 <= max < IDS
    ensures RunTo(ss, acts, s) && Inv(s) && s.table == EMPTY_TABLE && s.maxCoroNum == max
    ensures |s.frames| == 1 && s.frames[0].ResumeFrame? && ContextOf(s.frames[0]) == Some(c)
    ensures 0 <= cid <= MAX_CID && cid in s.cidMap && s.cidMap[cid] == c && cid !in s.resumable
  {
    var s0 := FromInit(max);
    Conserved(s0);
    var s1, s2;
    s1, s2, cid := YieldUnderCid(s0);
    s, c := ResumeFromMain(s2, cid);
    StepCounters(s2, DoResume(cid), s);
    ss, acts := Extend([s0], [], s0, CREATE, s1);
    ss, acts := Extend(ss, acts, s1, DoYield, s2);
    ss, acts := Extend(ss, acts, s2, DoResume(cid), s);
  }

  /** For every cap a run that resumes a cid twice ends in undefined behaviour, whether the
      coroutine ended after the first resume or waits on a descriptor. */
  lemma FaultsOnSecondResume(max: int, ended: bool) returns (ss: seq<State>, acts: seq<Action>, s: State, cid: int)
    requires 1 <= max < IDS
    ensures RunTo(ss, acts, s) && s.maxCoroNum == max
    ensures cid in s.cidMap && cid !in s.resumable && Step(s, DoResume(cid)).Fault?
  {
    var s1, c;
    ss, acts, s1, cid, c := Resumed(max);
    if ended {
      s := StaleAfterEnd(s1, cid, c);
      StepCounters(s1, DoEnd, s);
      ss, acts := Extend(ss, acts, s1, DoEnd, s);
    } else {
      var s2 := RunOn(s1);
      s := StaleAfterWait(s2, cid, c, 5);
      StepCounters(s1, RUN, s2);
      StepCounters(s2, DoWait(5, READ, true), s);
      ss, acts := Extend(ss, acts, s1, RUN, s2);
      ss, acts := Extend(ss, acts, s2, DoWait(5, READ, true), s);
    }
    StaleFaults(s, cid);
  }

  // ----- a close behind the extension's back

  /** For every cap of two or more: one coroutine waits on a descriptor, another one runs.
      The descriptor is closed natively, its number comes back, and the running coroutine
      waits on it: the wait reports success and nothing will ever wake it. */
  lemma LosesAfterForeignClose(max: int, fd: int)
    returns (ss: seq<State>, acts: seq<Action>, s: State, m: State, r: State, t: nat)
    requires 2 <= max < IDS && IsFd(fd)
    ensures RunTo(ss, acts, s) && s.maxCoroNum == max && fd in s.table.epoll
    ensures Step(s, DoForeignClose(fd)) == Ok(m) && Step(m, DoWait(fd, READ, true)) == Ok(r)
    ensures t in r.tasks && fd !in r.table.epoll && NoSource(r, t)
  {
    ss, acts, s, t := SecondRuns(max, fd);
    m, r := ClosedAndLost(s, fd, t);
  }

  lemma ClosedAndLost(s: State, fd: int, t: nat) returns (m: State, r: State)
    requires Inv(s) && |s.frames| == 1 && Top(s).CreateFrame? && Top(s).task == t && InCall(s.regs.ex)
    requires IsFd(fd) && EntryOf(s.table, fd).context.Some?
    ensures fd in s.table.epoll && Step(s, DoForeignClose(fd)) == Ok(m) && Step(m, DoWait(fd, READ, true)) == Ok(r)
    ensures t in r.tasks && fd !in r.table.epoll && NoSource(r, t)
  {
    BusyIsWatched(s, fd);
    m := Closes(s, fd);
    r := NextWaitIsLost(s, fd, m, READ, true, t);
  }

  lemma Closes(s: State, fd: int) returns (m: State)
    ensures Step(s, DoForeignClose(fd)) == Ok(m)
  {
    m := Step(s, DoForeignClose(fd)).state;
  }

  lemma BusyIsWatched(s: State, fd: int)
    requires Agrees(s.table) && EntryOf(s.table, fd).context.Some?
    ensures fd in s.table.epoll
  {
    assert EntryAgrees(s.table, fd);
  }
}
