/** Waking a coroutine: the right one, from the right registers, once. */
module Wakeups {
  import opened Options
  import opened Registry
  import opened Machine
  import opened Invariants
  import opened LeavingSteps
  import opened Runs
  import opened Nesting
  import opened Effects
  import opened Ownership

  // ----- resume by cid

  /** The context `c`, holding `regs`, waits in the map under `cid`. */
  ghost predicate Parked(s: State, cid: int, c: nat, regs: Regs) {
    && cid in s.resumable && cid in s.cidMap && s.cidMap[cid] == c
    && c in s.contexts && s.contexts[c] == regs
  }

  /** The context of a coroutine that waits is not the one the running coroutine was
      resumed from. */
  lemma WaitingNotTop(s: State, c: nat, t: nat)
    requires s.frames != [] && FramesOwned(s, |s.frames|) && ContextsOwned(s, |s.frames|, None)
    requires Belongs(s, c, t) && t in s.place && !s.place[t].Active?
    ensures ContextOf(Top(s)) != Some(c) && Top(s).task != t
  {
  }

  /** Contexts survive a step, unless the frame that returns releases them. */
  ghost predicate Survives(s: State, r: State, c: nat) {
    c in s.contexts && c in r.contexts && r.contexts[c] == s.contexts[c]
  }

  /** Contexts come and go at one end only: a fresh one is saved, the returning frame's
      one is released. */
  ghost predicate ContextsMoved(s: State, r: State) {
    r.contexts == s.contexts
    || (s.frames != [] && r.contexts == Without(s.contexts, ContextOf(Top(s))))
    || (s.frames != [] && r.contexts == Without(s.contexts[s.next := s.regs], ContextOf(Top(s))))
  }

  lemma StepMovesContexts(s: State, a: Action, r: State)
    requires Effect(s, a, r)
    ensures ContextsMoved(s, r)
  {
  }

  lemma MovedSurvives(s: State, r: State, c: nat)
    requires ContextsMoved(s, r) && c in s.contexts && c != s.next
    requires s.frames != [] ==> ContextOf(Top(s)) != Some(c)
    ensures Survives(s, r, c)
  {
  }

  lemma ContextSurvives(s: State, a: Action, r: State, c: nat, t: nat)
    requires Effect(s, a, r) && Belongs(s, c, t) && t in s.place && !s.place[t].Active?
    requires FramesOwned(s, |s.frames|) && ContextsOwned(s, |s.frames|, None) && PointersBelow(s)
    ensures Survives(s, r, c)
  {
    StepMovesContexts(s, a, r);
    if s.frames != [] {
      WaitingNotTop(s, c, t);
    }
    MovedSurvives(s, r, c);
  }

  lemma CidEntryStays(s: State, a: Action, r: State, cid: int, t: nat)
    requires Effect(s, a, r) && a != DoResume(cid) && cid in s.resumable && cid in s.cidMap
    requires t in s.tasks && s.tasks[t].cid == cid && CidsIssued(s)
    requires s.frames != [] ==> Top(s).task != t
    ensures cid in r.resumable && cid in r.cidMap && r.cidMap[cid] == s.cidMap[cid]
  {
  }

  lemma ParkedStays(s: State, a: Action, r: State, cid: int, c: nat, regs: Regs)
    requires Effect(s, a, r) && Parked(s, cid, c, regs) && a != DoResume(cid)
    requires FramesOwned(s, |s.frames|) && ContextsOwned(s, |s.frames|, None) && CidsOwned(s, None)
    requires CidsIssued(s) && PointersBelow(s)
    ensures Parked(r, cid, c, regs)
  {
    assert YieldedHolds(s, cid);
    var t := s.contexts[c].task.value;
    if s.frames != [] {
      WaitingNotTop(s, c, t);
    }
    ContextSurvives(s, a, r, c, t);
    CidEntryStays(s, a, r, cid, t);
  }

  lemma RunParked(ss: seq<State>, acts: seq<Action>, i: nat, cid: int, c: nat, regs: Regs)
    requires Run(ss, acts) && i < |acts| && IdsLeft(ss, acts, i + 1)
    requires Parked(ss[i], cid, c, regs) && acts[i] != DoResume(cid)
    ensures Parked(ss[i + 1], cid, c, regs)
  {
    RunStep(ss, acts, i);
    StepEffect(ss[i], acts[i], ss[i + 1]);
    ParkedStays(ss[i], acts[i], ss[i + 1], cid, c, regs);
  }

  lemma YieldParksIn(s: State, r: State, cid: int, t: nat)
    requires YieldEffect(s, r) && s.regs.task == Some(t) && t in s.tasks && s.tasks[t].cid == cid
    requires FramesOwned(s, |s.frames|) && ContextsOwned(s, |s.frames|, None) && PointersBelow(s)
    ensures Parked(r, cid, s.next, s.regs)
  {
    TopBelow(s);
  }

  lemma YieldParks(ss: seq<State>, acts: seq<Action>, k: nat, cid: int, t: nat)
    requires Run(ss, acts) && k < |acts| && IdsLeft(ss, acts, k + 1) && acts[k] == DoYield
    requires ss[k].regs.task == Some(t) && t in ss[k].tasks && ss[k].tasks[t].cid == cid
    ensures Parked(ss[k + 1], cid, ss[k].next, ss[k].regs)
  {
    RunEffect(ss, acts, k);
    RunCapped(ss, acts, k);
    YieldParksIn(ss[k], ss[k + 1], cid, t);
  }

  lemma TopBelow(s: State)
    requires s.frames != [] && FramesOwned(s, |s.frames|) && ContextsOwned(s, |s.frames|, None) && PointersBelow(s)
    ensures ContextOf(Top(s)) != Some(s.next)
  {
    var u := Top(s).task;
    assert OwnsContext(s, |s.frames|, None, u) && ContextAt(s, |s.frames|, u) == ContextOf(Top(s));
  }

  lemma ResumeFromParked(ss: seq<State>, acts: seq<Action>, n: nat, cid: int, c: nat, regs: Regs, t: nat)
    requires Run(ss, acts) && n < |acts| && IdsLeft(ss, acts, n + 1) && acts[n] == DoResume(cid)
    requires Parked(ss[n], cid, c, regs) && regs.task == Some(t) && regs.ex.Exec?
    ensures t in ss[n].tasks && ss[n].tasks[t].cid == cid
    ensures ss[n + 1].regs == regs.(ex := regs.ex.prev)
    ensures ss[n + 1].frames != [] && Top(ss[n + 1]).task == t
  {
    RunEffect(ss, acts, n);
    assert YieldedHolds(ss[n], cid);
  }

  lemma YieldInCall(ss: seq<State>, acts: seq<Action>, k: nat)
    requires Run(ss, acts) && k < |acts| && acts[k] == DoYield
    ensures InCall(ss[k].regs.ex)
  {
    assert StepAt(k);
  }

  lemma {:induction false} ParkedUntil(ss: seq<State>, acts: seq<Action>, k: nat, n: nat, cid: int, c: nat, regs: Regs)
    requires |ss| == |acts| + 1 && k <= n < |ss| && Parked(ss[k], cid, c, regs)
    requires forall i | k <= i < n && Parked(ss[i], cid, c, regs) :: Parked(ss[i + 1], cid, c, regs)
    ensures Parked(ss[n], cid, c, regs)
    decreases n
  {
    if k < n {
      ParkedUntil(ss, acts, k, n - 1, cid, c, regs);
    }
  }

  /** Resume picks the right context.  The coroutine `t` yielded under `cid` at step `k`;
      however many coroutines were created, ended, waited and were resumed since, as long
      as `cid` was not, `resume(cid)` at step `n` finds `t` alive under the same id and
      continues it with exactly the registers it yielded with, behind the call of yield. */
  lemma ResumeContinuesLatestYield(ss: seq<State>, acts: seq<Action>, k: nat, n: nat, cid: int, t: nat)
    requires Run(ss, acts) && k < n < |acts| && IdsLeft(ss, acts, n + 1)
    requires acts[k] == DoYield && ss[k].regs.task == Some(t) && t in ss[k].tasks && ss[k].tasks[t].cid == cid
    requires acts[n] == DoResume(cid)
    requires forall j | k < j < n :: acts[j] != DoResume(cid)
    ensures t in ss[n].tasks && ss[n].tasks[t].cid == cid
    ensures ss[k].regs.ex.Exec? && ss[n + 1].regs == ss[k].regs.(ex := ss[k].regs.ex.prev)
    ensures ss[n + 1].frames != [] && Top(ss[n + 1]).task == t
  {
    var c, regs := ss[k].next, ss[k].regs;
    YieldParks(ss, acts, k, cid, t);
    YieldInCall(ss, acts, k);
    forall i | k + 1 <= i < n && Parked(ss[i], cid, c, regs) ensures Parked(ss[i + 1], cid, c, regs) {
      RunParked(ss, acts, i, cid, c, regs);
    }
    ParkedUntil(ss, acts, k + 1, n, cid, c, regs);
    ResumeFromParked(ss, acts, n, cid, c, regs, t);
  }

  // ----- registrations and dispatch

  /** The entry of `fd` is `e`, whose context `c` holds `regs`. */
  ghost predicate Registered(s: State, fd: int, e: Event, c: nat, regs: Regs) {
    && EntryOf(s.table, fd) == e && e.context == Some(c)
    && c in s.contexts && s.contexts[c] == regs
  }

  /** Neither a dispatch nor a close of `fd`. */
  predicate LeavesEntry(a: Action, fd: int) {
    a != DoDispatch(fd) && a != DoSocketClose(fd)
  }

  lemma EntryStays(s: State, a: Action, r: State, fd: int)
    requires Effect(s, a, r) && Disciplined(s, a) && Agrees(s.table) && LeavesEntry(a, fd)
    requires EntryOf(s.table, fd).context.Some?
    ensures EntryOf(r.table, fd) == EntryOf(s.table, fd)
  {
    if a.DoWait? {
      StoreHarmsNoWaiter(s.table, a.fd, s.next, a.req, a.added);
    }
  }

  /** A wait on `fd` that the kernel does not refuse. */
  predicate Accepted(a: Action, fd: int) {
    a.DoWait? && a.fd == fd && a.added
  }

  lemma IdleStays(s: State, a: Action, r: State, fd: int)
    requires Effect(s, a, r) && Disciplined(s, a) && Agrees(s.table) && !Accepted(a, fd)
    requires EntryOf(s.table, fd).context.None?
    ensures EntryOf(r.table, fd).context.None?
  {
    if a.DoWait? {
      StoreHarmsNoWaiter(s.table, a.fd, s.next, a.req, a.added);
    }
  }

  lemma RunIdle(ss: seq<State>, acts: seq<Action>, i: nat, fd: int)
    requires Run(ss, acts) && i < |acts| && IdsLeft(ss, acts, i + 1)
    requires !Accepted(acts[i], fd) && EntryOf(ss[i].table, fd).context.None?
    ensures EntryOf(ss[i + 1].table, fd).context.None?
  {
    RunStep(ss, acts, i);
    StepEffect(ss[i], acts[i], ss[i + 1]);
    IdleStays(ss[i], acts[i], ss[i + 1], fd);
  }

  lemma RegisteredStays(s: State, a: Action, r: State, fd: int, e: Event, c: nat, regs: Regs)
    requires Effect(s, a, r) && Disciplined(s, a) && Agrees(s.table) && LeavesEntry(a, fd)
    requires Registered(s, fd, e, c, regs)
    requires FramesOwned(s, |s.frames|) && ContextsOwned(s, |s.frames|, None) && FdsOwned(s) && PointersBelow(s)
    ensures Registered(r, fd, e, c, regs)
  {
    assert WaiterHolds(s, fd, c);
    EntryStays(s, a, r, fd);
    ContextSurvives(s, a, r, c, s.contexts[c].task.value);
  }

  lemma RunRegistered(ss: seq<State>, acts: seq<Action>, i: nat, fd: int, e: Event, c: nat, regs: Regs)
    requires Run(ss, acts) && i < |acts| && IdsLeft(ss, acts, i + 1)
    requires Registered(ss[i], fd, e, c, regs) && LeavesEntry(acts[i], fd)
    ensures Registered(ss[i + 1], fd, e, c, regs)
  {
    RunStep(ss, acts, i);
    StepEffect(ss[i], acts[i], ss[i + 1]);
    RegisteredStays(ss[i], acts[i], ss[i + 1], fd, e, c, regs);
  }

  lemma InsideNoDispatch(ss: seq<State>, acts: seq<Action>, i: nat, fd: int)
    requires Run(ss, acts) && i < |acts| && ss[i].frames != []
    ensures acts[i] != DoDispatch(fd)
  {
    assert StepAt(i);
  }

  function EntryFor(context: nat, req: Request): Event {
    Event(Some(context), req.mask, req.fdType, req.functionName, req.arguments, req.argsCount, req.timer)
  }

  lemma WaitRegistersIn(s: State, r: State, fd: int, req: Request)
    requires WaitEffect(s, fd, Store(s.table, fd, s.next, req, true), r) && ValidRequest(req) && Agrees(s.table)
    requires s.frames != [] && EntryOf(s.table, fd).context.None?
    requires FramesOwned(s, |s.frames|) && ContextsOwned(s, |s.frames|, None) && PointersBelow(s)
    ensures Registered(r, fd, EntryFor(s.next, req), s.next, s.regs)
  {
    StoreHarmsNoWaiter(s.table, fd, s.next, req, true);
    TopBelow(s);
  }

  lemma WaitRegisters(ss: seq<State>, acts: seq<Action>, w: nat, fd: int, req: Request)
    requires Run(ss, acts) && w < |acts| && IdsLeft(ss, acts, w + 1) && acts[w] == DoWait(fd, req, true)
    requires EntryOf(ss[w].table, fd).context.None?
    ensures Registered(ss[w + 1], fd, EntryFor(ss[w].next, req), ss[w].next, ss[w].regs)
  {
    RunStep(ss, acts, w);
    StepEffect(ss[w], acts[w], ss[w + 1]);
    WaitRegistersIn(ss[w], ss[w + 1], fd, req);
  }

  lemma DispatchOpens(ss: seq<State>, acts: seq<Action>, k: nat, fd: int, c: nat)
    requires Run(ss, acts) && k < |acts| && IdsLeft(ss, acts, k + 1)
    requires acts[k] == DoDispatch(fd) && EntryOf(ss[k].table, fd).context == Some(c)
    ensures EntryOf(ss[k + 1].table, fd).context.None?
    ensures ss[k].frames == [] && CalledFrom(ss[k], ss[k + 1]) && ContextOf(Top(ss[k + 1])) == Some(c)
  {
    RunStep(ss, acts, k);
    StepEffect(ss[k], acts[k], ss[k + 1]);
    FreeAgrees(ss[k].table, fd);
    StackMoves(ss[k], acts[k], ss[k + 1]);
  }

  /** The step that ends a dispatch releases the context it was for, and no other. */
  lemma DispatchCloses(ss: seq<State>, acts: seq<Action>, n: nat, c: nat)
    requires Run(ss, acts) && n < |acts| && IdsLeft(ss, acts, n + 1)
    requires |ss[n].frames| == 1 && ContextOf(ss[n].frames[0]) == Some(c) && ss[n + 1].frames == []
    ensures ss[n + 1].released == ss[n].released + multiset{c} && c !in ss[n + 1].contexts
  {
    RunEffect(ss, acts, n);
    CreateKeepsStack(ss, acts, n);
    ReleasesTop(ss[n], acts[n], ss[n + 1], c);
  }

  lemma CreateKeepsStack(ss: seq<State>, acts: seq<Action>, n: nat)
    requires Run(ss, acts) && n < |acts| && IdsLeft(ss, acts, n + 1)
    ensures acts[n].DoCreate? ==> |ss[n + 1].frames| >= |ss[n].frames|
  {
    RunStep(ss, acts, n);
    if acts[n].DoCreate? {
      CreateCalls(ss[n], acts[n], ss[n + 1]);
    }
  }

  lemma ReleasesTop(s: State, a: Action, r: State, c: nat)
    requires Effect(s, a, r) && |s.frames| == 1 && r.frames == [] && ContextOf(Top(s)) == Some(c)
    requires !a.DoCreate?
    ensures r.released == s.released + multiset{c} && c !in r.contexts
  {
  }

  lemma {:induction false} IdleUntil(ss: seq<State>, k: nat, n: nat, fd: int)
    requires k <= n < |ss| && EntryOf(ss[k].table, fd).context.None?
    requires forall i | k <= i < n && EntryOf(ss[i].table, fd).context.None? ::
               EntryOf(ss[i + 1].table, fd).context.None?
    ensures EntryOf(ss[n].table, fd).context.None?
    decreases n
  {
    if k < n {
      IdleUntil(ss, k, n - 1, fd);
    }
  }

  lemma {:induction false} RegisteredUntil(ss: seq<State>, k: nat, n: nat, fd: int, e: Event, c: nat, regs: Regs)
    requires k <= n < |ss| && Registered(ss[k], fd, e, c, regs)
    requires forall i | k <= i < n && Registered(ss[i], fd, e, c, regs) :: Registered(ss[i + 1], fd, e, c, regs)
    ensures Registered(ss[n], fd, e, c, regs)
    decreases n
  {
    if k < n {
      RegisteredUntil(ss, k, n - 1, fd, e, c, regs);
    }
  }

  /** Re-registration survives dispatch.  A dispatch of `fd` at step `k` wakes the context
      `c`; before control is back in the event loop, at step `n`, some coroutine at some
      depth waits on `fd` and the kernel accepts it (step `w`, the first that it accepts).  Then
      the entry holds exactly that registration when the dispatch is over, its context is
      intact, and the dispatch's last step releases the old context and no other. */
  lemma ReRegistrationSurvivesDispatch(ss: seq<State>, acts: seq<Action>, k: nat, w: nat, n: nat,
                                       fd: int, c: nat, req: Request)
    requires Run(ss, acts) && k < w <= n < |acts| && IdsLeft(ss, acts, n + 1)
    requires acts[k] == DoDispatch(fd) && EntryOf(ss[k].table, fd).context == Some(c)
    requires forall j | k < j <= n :: ss[j].frames != []
    requires ss[n + 1].frames == []
    requires acts[w] == DoWait(fd, req, true)
    requires forall j | k < j < w :: !Accepted(acts[j], fd)
    requires forall j | w < j <= n :: acts[j] != DoSocketClose(fd)
    ensures EntryOf(ss[n + 1].table, fd) == EntryFor(ss[w].next, req)
    ensures ss[w].next in ss[n + 1].contexts && ss[n + 1].contexts[ss[w].next] == ss[w].regs
    ensures ss[n + 1].released == ss[n].released + multiset{c} && c !in ss[n + 1].contexts
  {
    DispatchOpens(ss, acts, k, fd, c);
    forall i | k + 1 <= i < w && EntryOf(ss[i].table, fd).context.None?
      ensures EntryOf(ss[i + 1].table, fd).context.None?
    {
      RunIdle(ss, acts, i, fd);
    }
    IdleUntil(ss, k + 1, w, fd);
    WaitRegisters(ss, acts, w, fd, req);
    var e, c', regs := EntryFor(ss[w].next, req), ss[w].next, ss[w].regs;
    forall i | w + 1 <= i < n + 1 && Registered(ss[i], fd, e, c', regs) ensures Registered(ss[i + 1], fd, e, c', regs) {
      InsideNoDispatch(ss, acts, i, fd);
      RunRegistered(ss, acts, i, fd, e, c', regs);
    }
    RegisteredUntil(ss, w + 1, n + 1, fd, e, c', regs);
    DispatchBottom(ss, acts, k, n, c);
    DispatchCloses(ss, acts, n, c);
  }

  lemma DispatchBottom(ss: seq<State>, acts: seq<Action>, k: nat, n: nat, c: nat)
    requires Run(ss, acts) && k < n < |acts| && IdsLeft(ss, acts, n + 1)
    requires ss[k].frames == [] && CalledFrom(ss[k], ss[k + 1]) && ContextOf(Top(ss[k + 1])) == Some(c)
    requires forall j | k < j <= n :: ss[j].frames != []
    requires ss[n + 1].frames == []
    ensures |ss[n].frames| == 1 && ContextOf(ss[n].frames[0]) == Some(c)
  {
    forall j | k < j < n ensures StackMoved(ss[j], ss[j + 1]) {
      RunStackMoves(ss, acts, j);
    }
    CallerWaits(ss, k, n);
    RunStackMoves(ss, acts, n);
    assert ss[n].frames[..1][0] == ss[n].frames[0];
  }

  function CallFor(req: Request): Option<Call> {
    match req.functionName
    case Some(name) => Some(Call(name, req.arguments, req.argsCount))
    case None => None
  }

  lemma DispatchWakesRegistered(ss: seq<State>, acts: seq<Action>, n: nat, fd: int,
                                e: Event, c: nat, regs: Regs, t: nat)
    requires Run(ss, acts) && n < |acts| && IdsLeft(ss, acts, n + 1) && acts[n] == DoDispatch(fd)
    requires Registered(ss[n], fd, e, c, regs) && regs.task == Some(t) && regs.ex.Exec?
    ensures ss[n + 1].regs == regs.(ex := regs.ex.prev)
    ensures ss[n + 1].frames != [] && Top(ss[n + 1]).task == t
  {
    RunEffect(ss, acts, n);
  }

  lemma WaitInCall(ss: seq<State>, acts: seq<Action>, w: nat)
    requires Run(ss, acts) && w < |acts| && acts[w].DoWait?
    ensures InCall(ss[w].regs.ex) && ss[w].frames != []
  {
    assert StepAt(w);
  }

  lemma RunRunsTop(ss: seq<State>, acts: seq<Action>, w: nat)
    requires Run(ss, acts) && IdsLeft(ss, acts, w) && ss[w].frames != []
    ensures ss[w].regs.task == Some(Top(ss[w]).task)
  {
    RunCapped(ss, acts, w);
    RunsTop(ss[w]);
  }

  lemma RunsTop(s: State)
    requires Running(s) && s.frames != []
    ensures s.regs.task == Some(Top(s).task)
  {
  }

  /** A dispatch answers the wait.  The kernel accepted a wait on an idle descriptor at step
      `w`; whatever ran since, the next dispatch of the descriptor, at step `n`, makes exactly
      the call the wait asked for, with its arguments, and continues the coroutine that
      waited with exactly the registers it waited with, behind the call of the wait. */
  lemma DispatchAnswersWait(ss: seq<State>, acts: seq<Action>, w: nat, n: nat, fd: int, req: Request)
    requires Run(ss, acts) && w < n < |acts| && IdsLeft(ss, acts, n + 1)
    requires acts[w] == DoWait(fd, req, true) && EntryOf(ss[w].table, fd).context.None?
    requires acts[n] == DoDispatch(fd) && forall j | w < j < n :: LeavesEntry(acts[j], fd)
    ensures CallMade(ss[n].table, fd) == CallFor(req)
    ensures ss[w].regs.ex.Exec? && ss[n + 1].regs == ss[w].regs.(ex := ss[w].regs.ex.prev)
    ensures ss[w].frames != [] && ss[n + 1].frames != [] && Top(ss[n + 1]).task == Top(ss[w]).task
  {
    var e, c, regs := EntryFor(ss[w].next, req), ss[w].next, ss[w].regs;
    WaitInCall(ss, acts, w);
    RunRunsTop(ss, acts, w);
    WaitRegisters(ss, acts, w, fd, req);
    forall i | w + 1 <= i < n && Registered(ss[i], fd, e, c, regs) ensures Registered(ss[i + 1], fd, e, c, regs) {
      RunRegistered(ss, acts, i, fd, e, c, regs);
    }
    RegisteredUntil(ss, w + 1, n, fd, e, c, regs);
    DispatchWakesRegistered(ss, acts, n, fd, e, c, regs, Top(ss[w]).task);
  }

  // ----- at most once

  /** Wake-up at most once: over any run, whatever is dispatched and however often, a
      context is resumed at most once and released at most once; it is not released while
      allocated, and not yet resumed while an entry or a fresh map slot holds it. */
  lemma WokenAtMostOnce(ss: seq<State>, acts: seq<Action>, n: nat, c: nat)
    requires Run(ss, acts) && IdsLeft(ss, acts, n)
    ensures ss[n].resumed[c] <= 1 && ss[n].released[c] <= 1
    ensures c in ss[n].contexts ==> ss[n].released[c] == 0
    ensures (exists src: Source :: !src.OnStack? && HoldsContext(ss[n], src, c)) ==> ss[n].resumed[c] == 0
  {
    RunCapped(ss, acts, n);
    forall src: Source | !src.OnStack? && HoldsContext(ss[n], src, c) ensures ss[n].resumed[c] == 0 {
      WaitingNotResumed(ss[n], src, c);
    }
  }

  lemma WaitingNotResumed(s: State, src: Source, c: nat)
    requires Owned(s, |s.frames|, None) && WokenOnce(s) && !src.OnStack? && HoldsContext(s, src, c)
    ensures s.resumed[c] == 0
  {
  }

  /** The table agrees with the kernel in every state of a run. */
  lemma TableAgreesThroughout(ss: seq<State>, acts: seq<Action>, n: nat, fd: int)
    requires Run(ss, acts) && IdsLeft(ss, acts, n)
    ensures var e := EntryOf(ss[n].table, fd);
      && (e.context.Some? <==> e.fdType != 0) && (e.context.Some? <==> e.mask != 0)
      && (e.context.Some? <==> fd in ss[n].table.epoll)
  {
    RunCapped(ss, acts, n);
    assert EntryAgrees(ss[n].table, fd);
  }
}
