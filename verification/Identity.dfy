/** A running coroutine is itself: `get_current_cid` is its own id, and the return value it
    frees when it ends is its own. */
module Identities {
  import opened Options
  import opened CidSpec
  import opened Machine
  import opened Invariants
  import opened LeavingSteps
  import opened Preservation
  import opened Runs
  import opened Nesting
  import opened Effects
  import opened MainTasks

  /** The coroutine `t` was created at step `k`. */
  ghost predicate Born(ss: seq<State>, acts: seq<Action>, k: nat, t: nat) {
    && k < |acts| < |ss| && acts[k].DoCreate?
    && |ss[k + 1].frames| > |ss[k].frames| && Top(ss[k + 1]).task == t
  }

  ghost predicate IsRunning(s: State, t: nat) {
    s.frames != [] && Top(s).task == t
  }

  /** What the state after an admitted create knows of the new coroutine. */
  ghost predicate IsNew(s: State, a: Action, r: State, t: nat) {
    && a.DoCreate? && CalledFrom(s, r) && Top(r).CreateFrame? && Top(r).task == t
    && t == s.next + 2 && t !in s.tasks && r.contexts == s.contexts && r.regs.retPtr == a.retPtr
    && t in r.tasks && r.tasks[t].cid == NextFree(s.cids) + 1
  }

  lemma NewTask(s: State, a: Action, r: State)
    requires Inv(s) && Inv(r) && a.DoCreate? && Disciplined(s, a) && IdLeft(s, a) && Step(s, a) == Ok(r)
    requires |r.frames| > |s.frames|
    ensures IsNew(s, a, r, Top(r).task)
  {
    CreateCalls(s, a, r);
    CreateEffects(s, a, r);
  }

  lemma RunBorn(ss: seq<State>, acts: seq<Action>, k: nat, t: nat)
    requires Run(ss, acts) && Born(ss, acts, k, t) && IdsLeft(ss, acts, k + 1)
    ensures IsNew(ss[k], acts[k], ss[k + 1], t)
  {
    RunStep(ss, acts, k);
    RunCapped(ss, acts, k + 1);
    NewTask(ss[k], acts[k], ss[k + 1]);
  }

  // ----- get_current_cid

  lemma StepCid(s: State, a: Action, r: State, t: nat)
    requires Effect(s, a, r) && t in s.tasks && t in r.tasks
    ensures r.tasks[t].cid == s.tasks[t].cid
  {
  }

  lemma {:induction false} CidStays(ss: seq<State>, acts: seq<Action>, m: nat, n: nat, t: nat)
    requires Run(ss, acts) && m <= n && IdsLeft(ss, acts, n) && t in ss[m].tasks && t in ss[n].tasks
    ensures ss[n].tasks[t].cid == ss[m].tasks[t].cid
    decreases n
  {
    if m < n {
      AliveUntilEnded(ss, acts, m, n - 1, t);
      RunEndsTask(ss, acts, n - 1, t);
      CidStays(ss, acts, m, n - 1, t);
      RunEffect(ss, acts, n - 1);
      StepCid(ss[n - 1], acts[n - 1], ss[n], t);
    }
  }

  lemma RunningIsCurrent(s: State, t: nat)
    requires IsRunning(s, t) && Running(s) && FramesOwned(s, |s.frames|)
    ensures t in s.tasks && s.regs.task == Some(t)
  {
  }

  lemma RunRunning(ss: seq<State>, acts: seq<Action>, n: nat, t: nat)
    requires Run(ss, acts) && IdsLeft(ss, acts, n) && IsRunning(ss[n], t)
    ensures t in ss[n].tasks && ss[n].regs.task == Some(t)
  {
    RunCapped(ss, acts, n);
    RunningIsCurrent(ss[n], t);
  }

  /** Inside a coroutine `get_current_cid` is the id its create took, at whatever depth it
      runs and whatever ran in between. */
  lemma CurrentCidIsOwn(ss: seq<State>, acts: seq<Action>, k: nat, n: nat, t: nat)
    requires Run(ss, acts) && k < n && IdsLeft(ss, acts, n) && Born(ss, acts, k, t) && IsRunning(ss[n], t)
    ensures CurrentCid(ss[n]) == Some(NextFree(ss[k].cids) + 1)
  {
    RunBorn(ss, acts, k, t);
    RunRunning(ss, acts, n, t);
    CidStays(ss, acts, k + 1, n, t);
  }

  lemma NewIsBorn(s: State, a: Action, r: State, t: nat)
    requires Effect(s, a, r) && t in r.tasks && t !in s.tasks
    ensures a.DoCreate? && |r.frames| == |s.frames| + 1 && Top(r).task == t
  {
  }

  /** Every live coroutine was created by some step of the run. */
  lemma {:induction false} WasBorn(ss: seq<State>, acts: seq<Action>, n: nat, t: nat) returns (k: nat)
    requires Run(ss, acts) && IdsLeft(ss, acts, n) && t in ss[n].tasks
    ensures k < n && Born(ss, acts, k, t)
  {
    if t in ss[n - 1].tasks {
      k := WasBorn(ss, acts, n - 1, t);
    } else {
      k := n - 1;
      RunEffect(ss, acts, k);
      NewIsBorn(ss[k], acts[k], ss[n], t);
    }
  }

  /** In main `get_current_cid` is the id that the coroutine last woken by the event loop took
      when it was created, as long as it has not ended. */
  lemma CurrentCidInMain(ss: seq<State>, acts: seq<Action>, k: nat, n: nat, t: nat)
    requires Run(ss, acts) && k < n && IdsLeft(ss, acts, n) && Born(ss, acts, k, t) && ss[n].frames == []
    requires LastWoken(ss, acts, n) == Some(t) && !LastWokenEnded(ss, acts, n)
    ensures CurrentCid(ss[n]) == Some(NextFree(ss[k].cids) + 1)
  {
    CurrentTaskInMain(ss, acts, n);
    RunBorn(ss, acts, k, t);
    CidStays(ss, acts, k + 1, n, t);
  }

  /** In main `get_current_cid` follows a live pointer if and only if the last dispatch that
      woke a coroutine ended in its suspension and that coroutine has not ended since; then
      it is the id that coroutine's own create took. */
  lemma CurrentCidInMainIff(ss: seq<State>, acts: seq<Action>, n: nat) returns (k: nat)
    requires Run(ss, acts) && IdsLeft(ss, acts, n) && ss[n].frames == []
    ensures CurrentCid(ss[n]).Some? <==> LastWoken(ss, acts, n).Some? && !LastWokenEnded(ss, acts, n)
    ensures CurrentCid(ss[n]).Some? ==>
              && k < n && Born(ss, acts, k, LastWoken(ss, acts, n).value)
              && CurrentCid(ss[n]) == Some(NextFree(ss[k].cids) + 1)
  {
    CurrentTaskInMain(ss, acts, n);
    k := 0;
    if CurrentCid(ss[n]).Some? {
      var t := LastWoken(ss, acts, n).value;
      k := WasBorn(ss, acts, n, t);
      CurrentCidInMain(ss, acts, k, n, t);
    }
  }

  // ----- the return value

  ghost predicate SavesRet(f: Frame, p: nat) {
    match f
    case CreateFrame(_, _, saved, _, _) => saved.retPtr == p
    case ResumeFrame(_, _, saved, _, _) => saved.retPtr == p
    case InvokeFrame(_, _, _, _) => true
  }

  /** Wherever the registers of `t` are -- current, in a context, or saved by a frame it has
      called -- the return-value pointer among them is `p`. */
  ghost predicate RetIs(s: State, t: nat, p: nat) {
    && (IsRunning(s, t) ==> s.regs.retPtr == p)
    && (forall c | c in s.contexts && s.contexts[c].task == Some(t) :: s.contexts[c].retPtr == p)
    && (forall i | 1 <= i < |s.frames| && s.frames[i - 1].task == t :: SavesRet(s.frames[i], p))
  }

  lemma CallRet(s: State, r: State, t: nat, p: nat)
    requires CalledFrom(s, r) && RetIs(s, t, p) && r.contexts == s.contexts
    requires Top(r).task == t ==> r.regs.retPtr == p
    ensures RetIs(r, t, p)
  {
    assert r.frames == s.frames + [Top(r)];
  }

  lemma ReturnRet(s: State, r: State, t: nat, p: nat)
    requires s.frames != [] && ReturnedTo(s, r) && RetIs(s, t, p) && s.regs.task == Some(Top(s).task)
    requires r.contexts == Without(s.contexts, ContextOf(Top(s)))
             || r.contexts == Without(s.contexts[s.next := s.regs], ContextOf(Top(s)))
    requires Top(s).InvokeFrame? ==> |s.frames| == 1
    ensures RetIs(r, t, p)
  {
  }

  lemma StayRet(s: State, r: State, t: nat, p: nat)
    requires r.frames == s.frames && r.contexts == s.contexts && r.regs.retPtr == s.regs.retPtr && RetIs(s, t, p)
    ensures RetIs(r, t, p)
  {
  }

  lemma LeaveRet(s: State, a: Action, r: State, t: nat, p: nat)
    requires Inv(s) && Disciplined(s, a) && Leaves(s, a) && Effect(s, a, r) && Step(s, a) == Ok(r)
    requires EntryThere(s) && RetIs(s, t, p)
    ensures RetIs(r, t, p)
  {
    var r' := LandsInnermost(s, a);
    InvokeIsBottom(s);
    ReturnRet(s, r, t, p);
  }

  lemma CreateRet(s: State, a: Action, r: State, t: nat, p: nat)
    requires Inv(s) && a.DoCreate? && Disciplined(s, a) && IdLeft(s, a) && Step(s, a) == Ok(r)
    requires t < s.next && RetIs(s, t, p)
    ensures RetIs(r, t, p)
  {
    CreateCalls(s, a, r);
    CreateEffects(s, a, r);
    if AtCap(s) {
      StayRet(s, r, t, p);
    } else {
        CallRet(s, r, t, p);
    }
  }

  lemma ResumeRet(s: State, cid: int, r: State, t: nat, p: nat)
    requires Inv(s) && Disciplined(s, DoResume(cid)) && Resume(s, cid) == Ok(r) && RetIs(s, t, p)
    ensures RetIs(r, t, p)
  {
    ResumeCalls(s, cid, r);
    ResumeEffects(s, cid, r);
    if cid in s.cidMap {
      CallRet(s, r, t, p);
    }
  }

  lemma DispatchRet(s: State, fd: int, r: State, t: nat, p: nat)
    requires Inv(s) && Disciplined(s, DoDispatch(fd)) && Dispatch(s, fd) == Ok(r) && RetIs(s, t, p)
    ensures RetIs(r, t, p)
  {
    DispatchCalls(s, fd, r);
    DispatchEffects(s, fd, r);
    if r.frames != s.frames {
      CallRet(s, r, t, p);
    }
  }

  lemma OtherRet(s: State, a: Action, r: State, t: nat, p: nat)
    requires Effect(s, a, r) && !Leaves(s, a) && RetIs(s, t, p)
    requires !a.DoCreate? && !a.DoResume? && !a.DoDispatch?
    ensures RetIs(r, t, p)
  {
    StayRet(s, r, t, p);
  }

  lemma StepRet(s: State, a: Action, r: State, t: nat, p: nat)
    requires Inv(s) && Disciplined(s, a) && IdLeft(s, a) && Step(s, a) == Ok(r) && Effect(s, a, r)
    requires (Leaves(s, a) ==> EntryThere(s)) && t < s.next && RetIs(s, t, p)
    ensures RetIs(r, t, p)
  {
    if Leaves(s, a) {
      LeaveRet(s, a, r, t, p);
    } else if a.DoCreate? {
      CreateRet(s, a, r, t, p);
    } else if a.DoResume? {
      ResumeRet(s, a.cid, r, t, p);
    } else if a.DoDispatch? {
      DispatchRet(s, a.fd, r, t, p);
    } else {
      OtherRet(s, a, r, t, p);
    }
  }

  lemma RunRet(ss: seq<State>, acts: seq<Action>, i: nat, t: nat, p: nat)
    requires Run(ss, acts) && i < |acts| && IdsLeft(ss, acts, i + 1) && t < ss[i].next && RetIs(ss[i], t, p)
    ensures RetIs(ss[i + 1], t, p)
  {
    RunStep(ss, acts, i);
    StepEffect(ss[i], acts[i], ss[i + 1]);
    StepFaultsIff(ss[i], acts[i]);
    StepRet(ss[i], acts[i], ss[i + 1], t, p);
  }

  lemma BornRet(s: State, a: Action, r: State, t: nat)
    requires IsNew(s, a, r, t) && FramesOwned(s, |s.frames|) && ContextsOwned(s, |s.frames|, None)
    ensures RetIs(r, t, a.retPtr)
  {
    forall c | c in s.contexts ensures s.contexts[c].task != Some(t) {
      assert ContextHeld(s, |s.frames|, c);
    }
    assert r.frames == s.frames + [Top(r)];
  }

  lemma {:induction false} RetStays(ss: seq<State>, acts: seq<Action>, k: nat, n: nat, t: nat)
    requires Run(ss, acts) && k < n && IdsLeft(ss, acts, n) && Born(ss, acts, k, t)
    ensures RetIs(ss[n], t, acts[k].retPtr) && t < ss[n].next
    decreases n
  {
    if n == k + 1 {
      RunBorn(ss, acts, k, t);
      RunCapped(ss, acts, k);
      RunCapped(ss, acts, n);
      BornRet(ss[k], acts[k], ss[n], t);
    } else {
      RetStays(ss, acts, k, n - 1, t);
      RunCounters(ss, acts, n - 1);
      RunRet(ss, acts, n - 1, t, acts[k].retPtr);
    }
  }

  /** `coro_close` frees the right return value: whenever the coroutine runs, and so when it
      ends, the pointer in the registers is the one its own create allocated, across any
      nesting, suspension and resumption. */
  lemma RetPtrIsOwn(ss: seq<State>, acts: seq<Action>, k: nat, n: nat, t: nat)
    requires Run(ss, acts) && k < n && IdsLeft(ss, acts, n) && Born(ss, acts, k, t) && IsRunning(ss[n], t)
    ensures ss[n].regs.retPtr == acts[k].retPtr
  {
    RetStays(ss, acts, k, n, t);
  }
}
