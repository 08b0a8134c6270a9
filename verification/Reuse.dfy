/** The allocator inside the scheduler: how soon a coroutine id can come back. */
module Reuse {
  import opened CidSpec
  import opened Machine
  import opened Runs

  /** What a step of the scheduler asks of the allocator. */
  function OpOf(s: State, a: Action): CidOp {
    match a
    case DoCreate(_, _, _) => if NrFree(s.cids) == 0 then Exhausted else Issue(NextFree(s.cids))
    case DoEnd =>
      if s.regs.task.Some? && s.regs.task.value in s.tasks
      then CidOp.Release(s.tasks[s.regs.task.value].cid - 1) else Other
    case _ => Other
  }

  lemma AllocIsCidStep(c: CidState, d: CidState)
    requires WellFormed(c) && d == AllocCid(c).1
    ensures CidStep(c, if NrFree(c) == 0 then Exhausted else Issue(NextFree(c)), d)
  {
    CounterAgrees(c);
    if NrFree(c) > 0 {
      NextFreeIsNearest(c);
    }
  }

  lemma CreateIsCidStep(s: State, a: Action, r: State)
    requires a.DoCreate? && Create(s, a.vm, a.ex, a.retPtr) == Ok(r) && WellFormed(s.cids)
    ensures CidStep(s.cids, OpOf(s, a), r.cids)
  {
    var cid, cids := CreateBranches(s, a.vm, a.ex, a.retPtr);
    if AtCap(s) && cid != -1 {
      RefuseCounters(s, cids, r);
    } else {
      AdmitCounters(s, cid, cids, a.vm, a.ex, a.retPtr);
    }
    AllocIsCidStep(s.cids, r.cids);
  }

  lemma StepIsCidStep(s: State, a: Action, r: State)
    requires Step(s, a) == Ok(r) && WellFormed(s.cids)
    ensures CidStep(s.cids, OpOf(s, a), r.cids)
  {
    match a
    case DoCreate(_, _, _) => CreateIsCidStep(s, a, r);
    case DoYield => YieldCounters(s, r);
    case DoWait(fd, req, added) => WaitCounters(s, fd, req, added, r);
    case DoEnd => EndCounters(s, r);
    case _ =>
  }

  function CidStates(ss: seq<State>): seq<CidState> {
    seq(|ss|, i requires 0 <= i < |ss| => ss[i].cids)
  }

  function CidOps(ss: seq<State>, acts: seq<Action>): seq<CidOp>
    requires |ss| == |acts| + 1
  {
    seq(|acts|, i requires 0 <= i < |acts| => OpOf(ss[i], acts[i]))
  }

  lemma CidStepKeeps(s: CidState, op: CidOp, t: CidState)
    requires WellFormed(s) && CidStep(s, op, t)
    ensures WellFormed(t)
  {
  }

  lemma {:induction false} CidsWellFormed(ss: seq<State>, acts: seq<Action>, n: nat)
    requires Run(ss, acts) && n < |ss|
    ensures WellFormed(ss[n].cids)
  {
    if n > 0 {
      CidsWellFormed(ss, acts, n - 1);
      assert StepAt(n - 1);
      StepIsCidStep(ss[n - 1], acts[n - 1], ss[n]);
      CidStepKeeps(ss[n - 1].cids, OpOf(ss[n - 1], acts[n - 1]), ss[n].cids);
    }
  }

  /** Every run of the scheduler is a run of its allocator, with an empty allocator too. */
  lemma RunIsCidRun(ss: seq<State>, acts: seq<Action>)
    requires Run(ss, acts)
    ensures CidRun(CidStates(ss), CidOps(ss, acts))
  {
    forall i | 0 <= i < |acts| ensures CidStep(ss[i].cids, OpOf(ss[i], acts[i]), ss[i + 1].cids) {
      CidsWellFormed(ss, acts, i);
      assert StepAt(i);
      StepIsCidStep(ss[i], acts[i], ss[i + 1]);
    }
  }

  /** Between two creates of any run that take the same coroutine id, admitted or refused,
      every id that was free right after the first is taken, so at least as many other ids. */
  lemma CidReuseDistance(ss: seq<State>, acts: seq<Action>, i: nat, j: nat, c: int)
    requires Run(ss, acts) && i < j < |acts|
    requires OpOf(ss[i], acts[i]) == Issue(c) && OpOf(ss[j], acts[j]) == Issue(c)
    ensures CidSpec.Free(ss[i + 1].cids) <= Issued(CidOps(ss, acts)[i + 1..j]) - {c}
    ensures |Issued(CidOps(ss, acts)[i + 1..j]) - {c}| >= NrFree(ss[i + 1].cids)
  {
    RunIsCidRun(ss, acts);
    ReuseDistance(CidStates(ss), CidOps(ss, acts), i, j, c);
  }
}
