/** Properties of whole runs from `coro_init` on. */
module Runs {
  import opened Registry
  import opened CidSpec
  import opened Machine
  import opened Invariants
  import opened LeavingSteps
  import opened Preservation

  /** Names the step a proof looks at. */
  predicate StepAt(i: int) {
    true
  }

  ghost predicate Starts(s: State) {
    exists max, vm, ex :: s == Init(max, vm, ex)
  }

  /** Every action is disciplined and takes one state to the next. */
  ghost predicate Linked(ss: seq<State>, acts: seq<Action>) {
    && |ss| == |acts| + 1
    && forall i {:trigger StepAt(i)} | 0 <= i < |acts| ::
         StepAt(i) ==> Disciplined(ss[i], acts[i]) && Step(ss[i], acts[i]) == Ok(ss[i + 1])
  }

  /** A run from the first create on. */
  ghost predicate Run(ss: seq<State>, acts: seq<Action>) {
    Linked(ss, acts) && Starts(ss[0])
  }

  /** No create before step `n` met an empty allocator. */
  ghost predicate IdsLeft(ss: seq<State>, acts: seq<Action>, n: nat) {
    n <= |acts| < |ss| && forall i | 0 <= i < n :: IdLeft(ss[i], acts[i])
  }

  /** Fewer creates were refused than there are ids beyond the cap. */
  ghost predicate FewRefusals(s: State) {
    s.refused < IDS - s.maxCoroNum
  }

  // ----- counters

  /** What a step may do to the counters, in any state. */
  ghost predicate CountersMove(s: State, a: Action, r: State) {
    && r.maxCoroNum == s.maxCoroNum && r.origin == s.origin && r.refused >= s.refused && r.next >= s.next
    && (a.DoCreate? || r.refused == s.refused)
    && (r.coroNum <= s.coroNum
        || (a.DoCreate? && r.coroNum == s.coroNum + 1 && (!AtCap(s) || NrFree(s.cids) == 0)))
  }

  ghost predicate SameCounters(s: State, r: State) {
    && r.maxCoroNum == s.maxCoroNum && r.origin == s.origin && r.refused == s.refused && r.coroNum == s.coroNum
    && r.cids == s.cids && r.next >= s.next
  }

  lemma SettleCounters(s: State, callback: nat, r: State)
    requires SettleCallback(s, callback) == Ok(r)
    ensures SameCounters(s, r)
  {
  }

  lemma ReturnCounters(s: State, r: State)
    requires Return(s) == Ok(r)
    ensures SameCounters(s, r)
  {
    match Top(s)
    case CreateFrame(_, _, _, callback, _) =>
      var s1 := s.(frames := s.frames[..|s.frames| - 1], require := false);
      SettleCounters(s1, callback, SettleCallback(s1, callback).state);
    case ResumeFrame(_, _, _, _, _) =>
    case InvokeFrame(_, _, _, _) =>
  }

  lemma JumpCounters(s: State, r: State)
    requires Jump(s) == Ok(r)
    ensures SameCounters(s, r)
  {
    ReturnCounters(s.(regs := s.regs.(vm := s.origin), frames := s.frames[..s.jmp[s.checkPoint]]), r);
  }

  lemma YieldCounters(s: State, r: State)
    requires Yield(s) == Ok(r)
    ensures SameCounters(s, r)
  {
    JumpCounters(SaveByCid(s, s.regs.task.value, s.tasks[s.regs.task.value].cid), r);
  }

  lemma WaitCounters(s: State, fd: int, req: Request, added: bool, r: State)
    requires Wait(s, fd, req, added) == Ok(r)
    ensures SameCounters(s, r)
  {
    var out := Store(s.table, fd, s.next, req, added);
    if out.ok {
      JumpCounters(SaveByFd(s, out.table, fd), r);
    }
  }

  lemma EndCounters(s: State, r: State)
    requires End(s) == Ok(r)
    ensures s.regs.task.Some? && s.regs.task.value in s.tasks && s.tasks[s.regs.task.value].cid - 1 in s.cids.used
    ensures SameCounters(CloseTask(s, s.regs.task.value), r)
  {
    ReturnCounters(CloseTask(s, s.regs.task.value), r);
  }

  lemma RefuseCounters(s: State, cids: CidState, r: State)
    requires Refuse(s, cids) == Ok(r)
    ensures r.maxCoroNum == s.maxCoroNum && r.origin == s.origin && r.refused == s.refused + 1
    ensures r.coroNum == s.coroNum && r.cids == cids && r.next >= s.next
  {
    var taken := s.(cids := cids, callbacks := s.callbacks + {s.next}, next := s.next + 3, refused := s.refused + 1);
    SettleCounters(taken, s.next, r);
  }

  lemma AdmitCounters(s: State, cid: int, cids: CidState, vm: Vm, ex: Exec, retPtr: nat)
    ensures SameCounters(s.(cids := cids, coroNum := s.coroNum + 1), Admit(s, cid, cids, vm, ex, retPtr))
  {
  }

  lemma CreateBranches(s: State, vm: Vm, ex: Exec, retPtr: nat) returns (cid: int, cids: CidState)
    ensures cid == -1 <==> NrFree(s.cids) == 0
    ensures (cid, cids) == AllocCid(s.cids)
    ensures Create(s, vm, ex, retPtr) ==
            if AtCap(s) && cid != -1 then Refuse(s, cids) else Ok(Admit(s, cid, cids, vm, ex, retPtr))
  {
    cid, cids := AllocCid(s.cids).0, AllocCid(s.cids).1;
  }

  lemma CreateCounters(s: State, a: Action, r: State)
    requires a.DoCreate? && Create(s, a.vm, a.ex, a.retPtr) == Ok(r)
    ensures CountersMove(s, a, r)
  {
    var cid, cids := CreateBranches(s, a.vm, a.ex, a.retPtr);
    if AtCap(s) && cid != -1 {
      RefuseCounters(s, cids, r);
    } else {
      AdmitCounters(s, cid, cids, a.vm, a.ex, a.retPtr);
    }
  }

  lemma EnterCounters(s: State, frame: Frame, context: nat, r: State)
    requires Enter(s, frame, context) == Ok(r)
    ensures SameCounters(s, r)
  {
  }

  lemma ResumeCounters(s: State, cid: int, r: State)
    requires Resume(s, cid) == Ok(r)
    ensures SameCounters(s, r)
  {
    if cid in s.cidMap {
      var c := s.cidMap[cid];
      EnterCounters(s.(checkPoint := s.next, next := s.next + 1, resumable := s.resumable - {cid}),
                    ResumeFrame(s.checkPoint, s.require, s.regs, c, TaskOf(s, c)), c, r);
    }
  }

  lemma StepCounters(s: State, a: Action, r: State)
    requires Step(s, a) == Ok(r)
    ensures CountersMove(s, a, r)
  {
    match a
    case DoCreate(_, _, _) => CreateCounters(s, a, r);
    case DoResume(cid) => ResumeCounters(s, cid, r);
    case DoYield => YieldCounters(s, r);
    case DoWait(fd, req, added) => WaitCounters(s, fd, req, added, r);
    case DoEnd => EndCounters(s, r);
    case _ =>
  }

  ghost predicate Capped(s: State) {
    Inv(s) && s.coroNum <= s.maxCoroNum
  }

  /** Conservation: free ids, live coroutines and refused creates add up. */
  lemma Conserved(s: State)
    requires Counted(s)
    ensures NrFree(s.cids) + s.coroNum + s.refused == IDS
  {
  }

  lemma RunCounters(ss: seq<State>, acts: seq<Action>, i: nat)
    requires Linked(ss, acts) && i < |acts|
    ensures CountersMove(ss[i], acts[i], ss[i + 1])
  {
    assert StepAt(i);
    StepCounters(ss[i], acts[i], ss[i + 1]);
  }

  lemma StartCapped(s: State)
    requires Starts(s)
    ensures Capped(s)
  {
    var max, vm, ex :| s == Init(max, vm, ex);
    InitHolds(max, vm, ex);
  }

  lemma RunCappedStep(ss: seq<State>, acts: seq<Action>, i: nat)
    requires Linked(ss, acts) && i < |acts| && Capped(ss[i]) && IdLeft(ss[i], acts[i])
    ensures Capped(ss[i + 1])
  {
    RunCounters(ss, acts, i);
    assert StepAt(i);
    StepFaultsIff(ss[i], acts[i]);
  }

  /** Induction over a sequence of states. */
  lemma {:induction false} KeptThroughout(ss: seq<State>, n: nat, p: State -> bool)
    requires n < |ss| && p(ss[0])
    requires forall i | 0 <= i < n && p(ss[i]) :: p(ss[i + 1])
    ensures p(ss[n])
  {
    if n > 0 {
      KeptThroughout(ss, n - 1, p);
    }
  }

  lemma LinkedCapped(ss: seq<State>, acts: seq<Action>, n: nat)
    requires Linked(ss, acts) && IdsLeft(ss, acts, n) && Capped(ss[0])
    ensures Capped(ss[n])
  {
    forall i | 0 <= i < n && Capped(ss[i]) ensures Capped(ss[i + 1]) {
      RunCappedStep(ss, acts, i);
    }
    KeptThroughout(ss, n, s => Capped(s));
  }

  lemma RunCapped(ss: seq<State>, acts: seq<Action>, n: nat)
    requires Run(ss, acts) && IdsLeft(ss, acts, n)
    ensures Capped(ss[n])
  {
    StartCapped(ss[0]);
    LinkedCapped(ss, acts, n);
  }

  /** Safety and conservation over every run in which no create met an empty allocator:
      the counters add up, the cap holds, and the only disciplined next actions that run
      into undefined behaviour are a create that hits a dead task and the end of a dispatch
      whose entry has been freed. */
  lemma RunIsSafe(ss: seq<State>, acts: seq<Action>, n: nat, a: Action)
    requires Run(ss, acts) && IdsLeft(ss, acts, n)
    ensures Inv(ss[n])
    ensures NrFree(ss[n].cids) + ss[n].coroNum + ss[n].refused == IDS
    ensures ss[n].coroNum == |ss[n].tasks.Keys| <= ss[n].maxCoroNum
    ensures Disciplined(ss[n], a) && IdLeft(ss[n], a) ==> (Step(ss[n], a).Fault? <==> GoesWrong(ss[n], a))
  {
    RunCapped(ss, acts, n);
    Conserved(ss[n]);
    if Disciplined(ss[n], a) && IdLeft(ss[n], a) {
      StepFaultsIff(ss[n], a);
    }
  }

  /** With few refusals no create meets an empty allocator, the next one included. */
  lemma {:induction false} FewRefusalsLeaveIds(ss: seq<State>, acts: seq<Action>, n: nat)
    requires Run(ss, acts) && n < |acts| && FewRefusals(ss[n])
    ensures IdsLeft(ss, acts, n + 1)
  {
    if n > 0 {
      RunCounters(ss, acts, n - 1);
      FewRefusalsLeaveIds(ss, acts, n - 1);
    }
    RunCapped(ss, acts, n);
    Conserved(ss[n]);
  }

  /** The facts about one step of a run that the theorems build on. */
  lemma RunStep(ss: seq<State>, acts: seq<Action>, i: nat)
    requires Run(ss, acts) && i < |acts| && IdsLeft(ss, acts, i + 1)
    ensures Inv(ss[i]) && Disciplined(ss[i], acts[i]) && Step(ss[i], acts[i]) == Ok(ss[i + 1])
    ensures IdLeft(ss[i], acts[i])
  {
    RunCapped(ss, acts, i);
    assert StepAt(i);
  }
}
