/** What `current_coro` is while main runs, and when a create made by main uses a task
    that is gone. */
module MainTasks {
  import opened Options
  import opened Machine
  import opened Invariants
  import opened LeavingSteps
  import opened Preservation
  import opened Runs
  import opened Nesting
  import opened Effects
  import opened Dispatches

  /** Control comes back to the event loop from a dispatch that woke a waiter. */
  predicate EndsDispatch(s: State, r: State) {
    |s.frames| == 1 && s.frames[0].InvokeFrame? && r.frames == []
  }

  /** The coroutine woken by the last dispatch that woke one, if that dispatch ended in a
      suspension. */
  ghost function LastWoken(ss: seq<State>, acts: seq<Action>, n: nat): Option<nat>
    requires n <= |acts| < |ss|
  {
    if n == 0 then None
    else if EndsDispatch(ss[n - 1], ss[n]) then
      if acts[n - 1].DoEnd? then None else Some(ss[n - 1].frames[0].task)
    else LastWoken(ss, acts, n - 1)
  }

  /** `current_coro` is `o` while main runs, or will be when the create or resume main
      has called returns. */
  ghost predicate MainHas(s: State, o: Option<nat>) {
    if s.frames == [] then s.regs.task == o
    else match s.frames[0]
         case CreateFrame(_, _, saved, _, _) => saved.task == o
         case ResumeFrame(_, _, saved, _, _) => saved.task == o
         case InvokeFrame(_, _, _, _) => true
  }

  ghost predicate MainMoves(s: State, a: Action, r: State) {
    forall o | MainHas(s, o) ::
      MainHas(r, if !EndsDispatch(s, r) then o else if a.DoEnd? then None else Some(s.frames[0].task))
  }

  lemma CallMoves(s: State, a: Action, r: State)
    requires CalledFrom(s, r)
    ensures MainMoves(s, a, r)
  {
    assert r.frames == s.frames + [Top(r)];
  }

  lemma StayMoves(s: State, a: Action, r: State)
    requires r.frames == s.frames && r.regs.task == s.regs.task
    ensures MainMoves(s, a, r)
  {
  }

  lemma ReturnMoves(s: State, a: Action, m: State, r: State)
    requires m.frames == s.frames && s.frames != [] && Popped(m, r) && Restored(m, r)
    requires Top(s).InvokeFrame? ==> m.regs.task == if a.DoEnd? then None else Some(Top(s).task)
    ensures MainMoves(s, a, r)
  {
  }

  lemma LeaveMoves(s: State, a: Action, r: State)
    requires Inv(s) && Disciplined(s, a) && Leaves(s, a) && Step(s, a) == Ok(r)
    ensures MainMoves(s, a, r)
  {
    var m := WayOut(s, a);
    LeftEntryThere(s, a, m);
    var r' := LeaveKeeps(s, a, m);
    ReturnMoves(s, a, m, r);
  }

  lemma CreateMoves(s: State, a: Action, r: State)
    requires Inv(s) && a.DoCreate? && IdLeft(s, a) && Step(s, a) == Ok(r)
    ensures MainMoves(s, a, r)
  {
    CreateCalls(s, a, r);
    if AtCap(s) {
      StayMoves(s, a, r);
    } else {
      CallMoves(s, a, r);
    }
  }

  lemma ResumeMoves(s: State, a: Action, r: State)
    requires Inv(s) && a.DoResume? && Disciplined(s, a) && Step(s, a) == Ok(r)
    ensures MainMoves(s, a, r)
  {
    ResumeCalls(s, a.cid, r);
    if a.cid in s.cidMap {
      CallMoves(s, a, r);
    } else {
      StayMoves(s, a, r);
    }
  }

  lemma DispatchMoves(s: State, a: Action, r: State)
    requires Inv(s) && a.DoDispatch? && Disciplined(s, a) && Step(s, a) == Ok(r)
    ensures MainMoves(s, a, r)
  {
    DispatchCalls(s, a.fd, r);
    DispatchEffects(s, a.fd, r);
    if r.frames != s.frames {
      CallMoves(s, a, r);
    } else {
      StayMoves(s, a, r);
    }
  }

  lemma StepMoves(s: State, a: Action, r: State)
    requires Inv(s) && Disciplined(s, a) && IdLeft(s, a) && Step(s, a) == Ok(r)
    ensures MainMoves(s, a, r)
  {
    if Leaves(s, a) {
      LeaveMoves(s, a, r);
    } else {
      match a
      case DoCreate(_, _, _) => CreateMoves(s, a, r);
      case DoResume(_) => ResumeMoves(s, a, r);
      case DoDispatch(_) => DispatchMoves(s, a, r);
      case _ => StayMoves(s, a, r);
    }
  }

  lemma RunMoves(ss: seq<State>, acts: seq<Action>, i: nat)
    requires Run(ss, acts) && i < |acts| && IdsLeft(ss, acts, i + 1)
    ensures MainMoves(ss[i], acts[i], ss[i + 1])
  {
    RunStep(ss, acts, i);
    StepMoves(ss[i], acts[i], ss[i + 1]);
  }

  lemma {:induction false} MainHasLastWoken(ss: seq<State>, acts: seq<Action>, n: nat)
    requires Run(ss, acts) && IdsLeft(ss, acts, n)
    ensures MainHas(ss[n], LastWoken(ss, acts, n))
  {
    if n > 0 {
      MainHasLastWoken(ss, acts, n - 1);
      RunMoves(ss, acts, n - 1);
    }
  }

  // ----- ended coroutines

  /** The running coroutine is `t`, and it ends. */
  ghost predicate EndsTask(s: State, a: Action, t: nat) {
    a.DoEnd? && s.frames != [] && Top(s).task == t
  }

  ghost predicate EverEnded(ss: seq<State>, acts: seq<Action>, n: nat, t: nat)
    requires n <= |acts| && n <= |ss|
  {
    exists j :: 0 <= j < n && EndsTask(ss[j], acts[j], t)
  }

  /** Tasks go away when their coroutine ends, and do not come back. */
  lemma StepEndsTask(s: State, a: Action, r: State, t: nat)
    requires Effect(s, a, r) && t < s.next
    ensures t in r.tasks <==> t in s.tasks && !EndsTask(s, a, t)
  {
  }

  lemma RunEndsTask(ss: seq<State>, acts: seq<Action>, i: nat, t: nat)
    requires Run(ss, acts) && i < |acts| && IdsLeft(ss, acts, i + 1) && t < ss[i].next
    ensures t in ss[i + 1].tasks <==> t in ss[i].tasks && !EndsTask(ss[i], acts[i], t)
    ensures t < ss[i + 1].next
  {
    RunEffect(ss, acts, i);
    RunCounters(ss, acts, i);
    StepEndsTask(ss[i], acts[i], ss[i + 1], t);
  }

  lemma {:induction false} AliveUntilEnded(ss: seq<State>, acts: seq<Action>, m: nat, n: nat, t: nat)
    requires Run(ss, acts) && m <= n && IdsLeft(ss, acts, n) && t in ss[m].tasks
    ensures t < ss[n].next
    ensures t in ss[n].tasks <==> !(exists j :: m <= j < n && EndsTask(ss[j], acts[j], t))
    decreases n
  {
    if n == m {
      RunCapped(ss, acts, m);
    } else {
      AliveUntilEnded(ss, acts, m, n - 1, t);
      RunEndsTask(ss, acts, n - 1, t);
    }
  }

  lemma EndedIsGone(ss: seq<State>, acts: seq<Action>, j: nat, n: nat, t: nat)
    requires Run(ss, acts) && j < n && IdsLeft(ss, acts, n) && EndsTask(ss[j], acts[j], t)
    ensures t !in ss[n].tasks
  {
    RunCapped(ss, acts, j);
    assert t in ss[j].tasks;
    AliveUntilEnded(ss, acts, j, n, t);
  }

  /** The last woken coroutine was alive when its dispatch ended. */
  lemma {:induction false} LastWokenLived(ss: seq<State>, acts: seq<Action>, n: nat) returns (m: nat)
    requires Run(ss, acts) && IdsLeft(ss, acts, n) && LastWoken(ss, acts, n).Some?
    ensures m <= n && LastWoken(ss, acts, n).value in ss[m].tasks
  {
    if EndsDispatch(ss[n - 1], ss[n]) {
      m := n - 1;
      RunCapped(ss, acts, m);
      assert ss[m].frames[0].task in ss[m].tasks;
    } else {
      m := LastWokenLived(ss, acts, n - 1);
    }
  }

  /** A whole run determines what `current_coro` is in main: the coroutine woken by the
      last dispatch that woke one, if that dispatch ended in a suspension, and null
      otherwise.  It dangles if and only if that coroutine has ended since. */
  lemma CurrentTaskInMain(ss: seq<State>, acts: seq<Action>, n: nat)
    requires Run(ss, acts) && IdsLeft(ss, acts, n) && ss[n].frames == []
    ensures ss[n].regs.task == LastWoken(ss, acts, n)
    ensures ss[n].regs.task.Some? ==>
              (ss[n].regs.task.value !in ss[n].tasks <==> EverEnded(ss, acts, n, ss[n].regs.task.value))
  {
    MainHasLastWoken(ss, acts, n);
    if ss[n].regs.task.Some? {
      var t := ss[n].regs.task.value;
      var m := LastWokenLived(ss, acts, n);
      AliveUntilEnded(ss, acts, m, n, t);
      if EverEnded(ss, acts, n, t) {
        var j :| 0 <= j < n && EndsTask(ss[j], acts[j], t);
        EndedIsGone(ss, acts, j, n, t);
      }
    }
  }

  /** The last dispatch that woke a coroutine ended in its suspension, and the coroutine
      has ended since. */
  ghost predicate LastWokenEnded(ss: seq<State>, acts: seq<Action>, n: nat)
    requires n <= |acts| < |ss|
  {
    LastWoken(ss, acts, n).Some? && EverEnded(ss, acts, n, LastWoken(ss, acts, n).value)
  }

  /** Undefined behaviour over whole runs: a disciplined step with an id left runs into it
      if and only if it is a create, made by main at the cap, after the last coroutine the
      event loop woke and saw suspend has ended, or it ends a dispatch of a descriptor on
      which the kernel refused a wait meanwhile. */
  lemma FaultsInRunIff(ss: seq<State>, acts: seq<Action>, n: nat, a: Action)
    requires Run(ss, acts) && IdsLeft(ss, acts, n) && Disciplined(ss[n], a) && IdLeft(ss[n], a)
    ensures Step(ss[n], a).Fault? <==>
            || (a.DoCreate? && AtCap(ss[n]) && ss[n].frames == [] && LastWokenEnded(ss, acts, n))
            || EndsSpoiledDispatch(ss, acts, n, a)
  {
    RunIsSafe(ss, acts, n, a);
    StepFaultsIff(ss[n], a);
    ReadsFreedIff(ss, acts, n, a);
    if ss[n].frames == [] {
      CurrentTaskInMain(ss, acts, n);
    }
  }

  // ----- back in main

  lemma {:induction false} OriginStays(ss: seq<State>, acts: seq<Action>, n: nat)
    requires Linked(ss, acts) && n < |ss|
    ensures ss[n].origin == ss[0].origin && ss[n].maxCoroNum == ss[0].maxCoroNum
  {
    if n > 0 {
      OriginStays(ss, acts, n - 1);
      RunCounters(ss, acts, n - 1);
    }
  }

  /** Every dispatch returns to the stack `coro_init` was called on, with the base checkpoint
      and without `require`; and the cap is the configured one, or 3000 if none is. */
  lemma DispatchReturnsToMain(ss: seq<State>, acts: seq<Action>, n: nat, max: int, vm: Vm, ex: Exec)
    requires Run(ss, acts) && n < |acts| && IdsLeft(ss, acts, n + 1) && ss[0] == Init(max, vm, ex)
    ensures ss[n + 1].maxCoroNum == if max <= 0 then 3000 else max
    ensures EndsDispatch(ss[n], ss[n + 1]) ==>
              ss[n + 1].regs.vm == vm && ss[n + 1].checkPoint == BASE && !ss[n + 1].require
  {
    InitInMain(max, vm, ex);
    OriginStays(ss, acts, n);
    OriginStays(ss, acts, n + 1);
    if EndsDispatch(ss[n], ss[n + 1]) {
      RunStackMoves(ss, acts, n);
      ReturnsToOrigin(ss[n], ss[n + 1]);
    }
  }

  lemma ReturnsToOrigin(s: State, r: State)
    requires StackMoved(s, r) && EndsDispatch(s, r)
    ensures r.regs.vm == s.origin && r.checkPoint == BASE && !r.require
  {
  }
}
