/** Where the guarantees end: exact conditions, and the tight bound on the cap. */
module Limits {
  import opened Options
  import opened CidSpec
  import opened Machine
  import opened Invariants
  import opened LeavingSteps
  import opened EnteringSteps
  import opened CreatingSteps
  import opened Preservation
  import opened Runs
  import opened Nesting

  // ----- outside the arrays

  /** `cid_context_map` has 32769 places and the event table 102400: a resume of a cid that is
      not in the map, and a close, run into undefined behaviour exactly outside of them. */
  lemma OutsideFaultsIff(s: State, cid: int, fd: int)
    requires cid !in s.cidMap
    ensures Step(s, DoResume(cid)).Fault? <==> cid < 0 || cid >= 32769
    ensures Step(s, DoSocketClose(fd)).Fault? <==> fd < 0 || fd >= 102400
    ensures fd < 0 || fd >= 102400 ==> Step(s, DoDispatch(fd)).Fault?
  {
  }

  // ----- resuming a cid that must not be resumed

  /** Resuming a cid whose map entry is set is safe if and only if its coroutine yielded
      and has not been resumed since: otherwise the context is freed memory, or the
      coroutine would be on the activation stack twice. */
  lemma ResumeSafeIff(s: State, cid: int)
    requires Inv(s) && 0 <= cid <= MAX_CID && cid in s.cidMap
    ensures Resume(s, cid).Ok? && Inv(Resume(s, cid).state) <==> cid in s.resumable
  {
    if cid in s.resumable {
      ResumeKeeps(s, cid);
    } else {
      StaleResume(s, cid);
    }
  }

  lemma StaleResume(s: State, cid: int)
    requires FramesOwned(s, |s.frames|) && ContextsOwned(s, |s.frames|, None) && CidsOwned(s, None)
    requires 0 <= cid <= MAX_CID && cid in s.cidMap && cid !in s.resumable
    ensures Resume(s, cid).Ok? ==> !FramesOwned(Resume(s, cid).state, |Resume(s, cid).state.frames|)
  {
  }

  // ----- creating with no id left

  /** A create that goes through keeps the invariant if and only if an id was left; with
      none left, the coroutine can neither yield nor end without leaving the arrays. */
  lemma CreateKeepsIff(s: State, a: Action, r: State)
    requires Inv(s) && a.DoCreate? && Step(s, a) == Ok(r)
    ensures Inv(r) <==> NrFree(s.cids) > 0
    ensures NrFree(s.cids) == 0 ==> Step(r, DoYield).Fault? && Step(r, DoEnd).Fault?
  {
    CounterAgrees(s.cids);
    if NrFree(s.cids) > 0 {
      StepFaultsIff(s, a);
    } else {
      CreatedWithoutCid(s, a, r);
    }
  }

  lemma CreatedWithoutCid(s: State, a: Action, r: State)
    requires a.DoCreate? && Step(s, a) == Ok(r) && NrFree(s.cids) == 0
    ensures !CidsIssued(r) && Step(r, DoYield).Fault? && Step(r, DoEnd).Fault?
  {
    assert r == Admit(s, -1, s.cids, a.vm, a.ex, a.retPtr);
    assert r.tasks[s.next + 2].cid == -1;
  }

  /** The exact step at which the cap breaks: a create at the cap with no id left, which
      is when exactly 32768 - cap creates have been refused. */
  lemma CapBreaksIff(s: State, a: Action, r: State)
    requires Capped(s) && Step(s, a) == Ok(r)
    ensures r.coroNum > r.maxCoroNum <==> a.DoCreate? && AtCap(s) && NrFree(s.cids) == 0
    ensures r.coroNum > r.maxCoroNum <==>
            a.DoCreate? && s.coroNum == s.maxCoroNum && s.refused == IDS - s.maxCoroNum
  {
    StepCounters(s, a, r);
    Conserved(s);
    if a.DoCreate? && NrFree(s.cids) == 0 {
      assert r == Admit(s, -1, s.cids, a.vm, a.ex, a.retPtr);
    }
  }

  lemma CapBreaksInRunIff(ss: seq<State>, acts: seq<Action>, n: nat)
    requires Run(ss, acts) && n < |acts| && IdsLeft(ss, acts, n)
    ensures ss[n + 1].coroNum > ss[n + 1].maxCoroNum <==>
            acts[n].DoCreate? && ss[n].coroNum == ss[n].maxCoroNum && ss[n].refused == IDS - ss[n].maxCoroNum
  {
    RunCapped(ss, acts, n);
    assert StepAt(n);
    CapBreaksIff(ss[n], acts[n], ss[n + 1]);
  }

  // ----- the bound on refusals is tight

  const CALL: Exec := Exec(0, Exec(0, NoExec))
  const STACK: Vm := Vm(0, 0, 0)
  const CREATE: Action := DoCreate(STACK, CALL, 0)

  /** Main is in control and has never dispatched. */
  ghost predicate InMain(s: State) {
    s.frames == [] && s.regs.task.None?
  }

  /** A run that ends in `s`, in which no create met an empty allocator. */
  ghost predicate RunTo(ss: seq<State>, acts: seq<Action>, s: State) {
    Run(ss, acts) && IdsLeft(ss, acts, |acts|) && ss[|acts|] == s
  }

  lemma Extend(ss: seq<State>, acts: seq<Action>, s: State, a: Action, r: State)
    returns (ss': seq<State>, acts': seq<Action>)
    requires RunTo(ss, acts, s) && Disciplined(s, a) && IdLeft(s, a) && Step(s, a) == Ok(r)
    ensures RunTo(ss', acts', r) && ss' == ss + [r] && acts' == acts + [a]
  {
    ss', acts' := ss + [r], acts + [a];
    LinkOne(ss, acts, a, r);
    assert IdsLeft(ss', acts', |acts'|) by {
      forall i | 0 <= i < |acts'| ensures IdLeft(ss'[i], acts'[i]) {
        assert i < |acts| ==> IdLeft(ss[i], acts[i]);
      }
    }
  }

  lemma LinkOne(ss: seq<State>, acts: seq<Action>, a: Action, r: State)
    requires Linked(ss, acts) && Disciplined(ss[|acts|], a) && Step(ss[|acts|], a) == Ok(r)
    ensures Linked(ss + [r], acts + [a])
  {
    var ss', acts' := ss + [r], acts + [a];
    forall i | 0 <= i < |acts'| ensures Disciplined(ss'[i], acts'[i]) && Step(ss'[i], acts'[i]) == Ok(ss'[i + 1]) {
      assert StepAt(i);
    }
  }

  /** From main, a coroutine is created and yields at once. */
  lemma CreateAndYield(s: State) returns (r: State, e: State)
    requires Inv(s) && s.frames == [] && !AtCap(s) && NrFree(s.cids) > 0
    ensures Step(s, CREATE) == Ok(r)
    ensures Disciplined(r, DoYield) && Step(r, DoYield) == Ok(e)
    ensures Inv(e) && e.frames == [] && e.regs == s.regs && e.coroNum == s.coroNum + 1
    ensures e.refused == s.refused && e.maxCoroNum == s.maxCoroNum
  {
    r := CreateInside(s);
    e := LandsInnermost(r, DoYield);
    YieldCounters(r, e);
  }

  lemma CreateInside(s: State) returns (r: State)
    requires Inv(s) && !AtCap(s) && NrFree(s.cids) > 0
    ensures Step(s, CREATE) == Ok(r) && Inv(r) && CalledFrom(s, r) && Top(r).CreateFrame? && InCall(r.regs.ex)
    ensures r.coroNum == s.coroNum + 1 && r.refused == s.refused && r.maxCoroNum == s.maxCoroNum
  {
    CreateKeeps(s, STACK, CALL, 0);
    r := Create(s, STACK, CALL, 0).state;
    CreateCalls(s, CREATE, r);
    InCallAfterCreate(s, r);
  }

  lemma InCallAfterCreate(s: State, r: State)
    requires Create(s, STACK, CALL, 0) == Ok(r) && !AtCap(s)
    ensures InCall(r.regs.ex) && r.coroNum == s.coroNum + 1 && r.refused == s.refused && r.maxCoroNum == s.maxCoroNum
  {
  }

  lemma RefuseOnce(s: State) returns (r: State)
    requires Inv(s) && InMain(s) && AtCap(s) && NrFree(s.cids) > 0
    ensures Step(s, CREATE) == Ok(r)
    ensures Inv(r)
    ensures InMain(r) && r.coroNum == s.coroNum && r.refused == s.refused + 1 && r.maxCoroNum == s.maxCoroNum
  {
    var cid;
    r, cid := Refused(s);
    RefusedKeeps(s, r, cid);
    RefusedFacts(s, r, cid);
  }

  lemma Refused(s: State) returns (r: State, cid: int)
    requires WellFormed(s.cids) && InMain(s) && AtCap(s) && NrFree(s.cids) > 0
    requires PointersBelow(s) && TaskCallbacks(s)
    ensures Step(s, CREATE) == Ok(r)
    ensures RefusedAs(s, r, cid) && WellFormed(r.cids)
  {
    r := CreateRefuses(s, STACK, CALL, 0);
    cid := NextFree(s.cids) + 1;
  }

  lemma RefusedFacts(s: State, r: State, cid: int)
    requires RefusedAs(s, r, cid)
    ensures r.frames == s.frames && r.regs == s.regs && r.coroNum == s.coroNum
    ensures r.refused == s.refused + 1 && r.maxCoroNum == s.maxCoroNum
  {
  }

  /** A run goes on from another one. */
  ghost predicate GoesOn(ss: seq<State>, acts: seq<Action>, ss': seq<State>, acts': seq<Action>) {
    ss <= ss' && acts <= acts'
  }

  /** The same with one more live coroutine, back in main. */
  ghost predicate OneMore(s: State, e: State) {
    && e.frames == [] && e.regs == s.regs && e.coroNum == s.coroNum + 1
    && e.refused == s.refused && e.maxCoroNum == s.maxCoroNum
  }

  lemma ExtendTwice(ss: seq<State>, acts: seq<Action>, s: State, a: Action, r: State, b: Action, e: State)
    returns (ss': seq<State>, acts': seq<Action>)
    requires RunTo(ss, acts, s) && Disciplined(s, a) && IdLeft(s, a) && Step(s, a) == Ok(r)
    requires Disciplined(r, b) && IdLeft(r, b) && Step(r, b) == Ok(e)
    ensures RunTo(ss', acts', e) && GoesOn(ss, acts, ss', acts')
  {
    ss', acts' := Extend(ss, acts, s, a, r);
    ss', acts' := Extend(ss', acts', r, b, e);
  }

  lemma AddOne(ss: seq<State>, acts: seq<Action>, s: State) returns (ss': seq<State>, acts': seq<Action>, e: State)
    requires RunTo(ss, acts, s) && Inv(s) && s.frames == [] && !AtCap(s) && NrFree(s.cids) > 0
    ensures RunTo(ss', acts', e) && GoesOn(ss, acts, ss', acts') && Inv(e) && OneMore(s, e)
  {
    var r;
    r, e := CreateAndYield(s);
    ss', acts' := ExtendTwice(ss, acts, s, CREATE, r, DoYield, e);
  }

  /** A run that ends in main can go on until `k` coroutines are alive. */
  lemma {:induction false} FillUp(ss: seq<State>, acts: seq<Action>, s: State, k: nat)
    returns (ss': seq<State>, acts': seq<Action>, e: State)
    requires RunTo(ss, acts, s) && Inv(s) && s.frames == [] && s.coroNum <= k <= s.maxCoroNum && k + s.refused <= IDS
    ensures RunTo(ss', acts', e) && GoesOn(ss, acts, ss', acts') && Inv(e)
    ensures e.frames == [] && e.regs == s.regs && e.coroNum == k
    ensures e.refused == s.refused && e.maxCoroNum == s.maxCoroNum
    decreases k - s.coroNum
  {
    if s.coroNum == k {
      ss', acts', e := ss, acts, s;
    } else {
      Conserved(s);
      var ss1, acts1, q := AddOne(ss, acts, s);
      ss', acts', e := FillUp(ss1, acts1, q, k);
      GoesOnTransitive(ss, acts, ss1, acts1, ss', acts');
    }
  }

  lemma GoesOnTransitive(ss: seq<State>, acts: seq<Action>, ss1: seq<State>, acts1: seq<Action>,
                         ss2: seq<State>, acts2: seq<Action>)
    requires GoesOn(ss, acts, ss1, acts1) && GoesOn(ss1, acts1, ss2, acts2)
    ensures GoesOn(ss, acts, ss2, acts2)
  {
  }

  lemma FromInit(max: int) returns (s: State)
    requires max >= 1
    ensures s == Init(max, STACK, CALL) && Inv(s) && RunTo([s], [], s)
  {
    s := Init(max, STACK, CALL);
    InitHolds(max, STACK, CALL);
  }

  lemma {:induction false} Refusing(max: int, k: nat) returns (ss: seq<State>, acts: seq<Action>, s: State)
    requires 1 <= max <= IDS && k <= IDS - max
    ensures RunTo(ss, acts, s) && Inv(s) && InMain(s)
    ensures s.coroNum == max && s.refused == k && s.maxCoroNum == max
  {
    if k == 0 {
      var start := FromInit(max);
      ss, acts, s := FillUp([start], [], start, max);
    } else {
      ss, acts, s := Refusing(max, k - 1);
      Conserved(s);
      var r := RefuseOnce(s);
      ss, acts := Extend(ss, acts, s, CREATE, r);
      s := r;
    }
  }

  /** The bound is tight: for every cap there is a disciplined run with exactly
      32768 - cap refusals after which the next create is admitted past the cap, with the
      id -1. */
  lemma CapIsTight(max: int) returns (ss: seq<State>, acts: seq<Action>, s: State, r: State)
    requires 1 <= max <= IDS
    ensures RunTo(ss, acts, s) && s.maxCoroNum == max && s.refused == IDS - max && s.coroNum == max
    ensures Step(s, CREATE) == Ok(r)
    ensures r.coroNum == max + 1 && s.next + 2 in r.tasks && r.tasks[s.next + 2].cid == -1
  {
    ss, acts, s := Refusing(max, IDS - max);
    Conserved(s);
    r := AdmittedPastCap(s);
  }

  lemma AdmittedPastCap(s: State) returns (r: State)
    requires NrFree(s.cids) == 0 && InMain(s)
    ensures Step(s, CREATE) == Ok(r)
    ensures r.coroNum == s.coroNum + 1 && s.next + 2 in r.tasks && r.tasks[s.next + 2].cid == -1
  {
    r := Admit(s, -1, s.cids, STACK, CALL, 0);
  }
}
