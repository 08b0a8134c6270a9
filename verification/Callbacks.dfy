/** The copies `coroutine_create` makes of its callbacks: who holds each of them, when it
    is freed, and which are lost. */
module Callbacks {
  import opened Options
  import opened Registry
  import opened CidSpec
  import opened Machine
  import opened Invariants
  import opened LeavingSteps
  import opened CreatingSteps
  import opened Preservation
  import opened Runs

  /** Not freed, and nobody is left who could free it. */
  ghost predicate Leaked(s: State, k: nat) {
    k in s.callbacks && k !in s.freed && !HeldByFrame(s, k) && !HeldByTask(s, k)
  }

  /** The create in progress at position `i` of the activation stack holds `k`. */
  ghost predicate FrameHolds(s: State, i: nat, k: nat) {
    i < |s.frames| && s.frames[i].CreateFrame? && s.frames[i].callback == k
  }

  ghost predicate TaskHolds(s: State, t: nat, k: nat) {
    t in s.tasks && s.tasks[t].callback == Some(k)
  }

  /** The step settles another copy on the task that holds `k`: a refused create while
      `current_coro` points to that task, or a suspension that returns through the create
      that made it. */
  ghost predicate Overwrites(s: State, a: Action, k: nat) {
    match a
    case DoCreate(_, _, _) => AtCap(s) && s.regs.task.Some? && TaskHolds(s, s.regs.task.value, k)
    case DoYield => SettlesOver(s, k)
    case DoWait(_, _, _) => Leaves(s, a) && SettlesOver(s, k)
    case _ => false
  }

  ghost predicate SettlesOver(s: State, k: nat) {
    s.frames != [] && Top(s).CreateFrame? && TaskHolds(s, Top(s).task, k)
  }

  // ----- holders, step by step

  lemma PushHolders(s: State, r: State, frame: Frame, k: nat)
    requires r.frames == s.frames + [frame]
    ensures HeldByFrame(r, k) <==> HeldByFrame(s, k) || (frame.CreateFrame? && frame.callback == k)
  {
    if HeldByFrame(s, k) {
      var i :| 0 <= i < |s.frames| && s.frames[i].CreateFrame? && s.frames[i].callback == k;
      assert r.frames[i] == s.frames[i];
    }
    assert r.frames[|s.frames|] == frame;
  }

  lemma SettleHolders(s: State, r: State, t: nat, c: nat, k: nat)
    requires t in s.tasks && r.tasks == s.tasks[t := s.tasks[t].(callback := Some(c))]
    requires TaskCallbacks(s)
    ensures HeldByTask(r, k) <==> k == c || (HeldByTask(s, k) && !TaskHolds(s, t, k))
  {
    assert TaskHolds(r, t, c);
    if HeldByTask(s, k) && !TaskHolds(s, t, k) {
      var u :| u in s.tasks && s.tasks[u].callback == Some(k);
      assert r.tasks[u].callback == Some(k);
    }
  }

  ghost predicate SameHolders(s: State, r: State) {
    forall k :: Leaked(r, k) <==> Leaked(s, k)
  }

  ghost predicate LeaksMove(s: State, a: Action, r: State) {
    forall k :: Leaked(r, k) <==> Leaked(s, k) || Overwrites(s, a, k)
  }

  lemma AdmitLeaks(s: State, a: Action, r: State, frame: Frame, t: nat, cid: int)
    requires a.DoCreate? && !AtCap(s) && AdmittedAs(s, r, frame, t, cid) && PointersBelow(s) && TaskCallbacks(s)
    ensures LeaksMove(s, a, r)
  {
    forall k: nat ensures Leaked(r, k) <==> Leaked(s, k) {
      PushHolders(s, r, frame, k);
      if HeldByTask(s, k) {
        var u :| u in s.tasks && s.tasks[u].callback == Some(k);
        assert TaskHolds(r, u, k);
      }
    }
  }

  lemma RefuseLeaks(s: State, a: Action, r: State, cid: int)
    requires a.DoCreate? && AtCap(s) && RefusedAs(s, r, cid) && PointersBelow(s)
    requires FrameCallbacks(s) && TaskCallbacks(s)
    ensures LeaksMove(s, a, r)
  {
    forall k: nat ensures Leaked(r, k) <==> Leaked(s, k) || Overwrites(s, a, k) {
      assert HeldByFrame(r, k) <==> HeldByFrame(s, k);
      if s.regs.task.Some? {
        SettleHolders(s, r, s.regs.task.value, s.next, k);
      } else {
        assert HeldByTask(r, k) <==> HeldByTask(s, k);
      }
    }
  }

  lemma CreateLeaks(s: State, a: Action, r: State)
    requires Inv(s) && a.DoCreate? && IdLeft(s, a) && Step(s, a) == Ok(r)
    ensures LeaksMove(s, a, r)
  {
    if AtCap(s) {
      CreateRefused(s, a.vm, a.ex, a.retPtr, r);
      RefuseLeaks(s, a, r, NextFree(s.cids) + 1);
    } else {
      var r', frame, t, cid := Admitted(s, a.vm, a.ex, a.retPtr);
      AdmitLeaks(s, a, r, frame, t, cid);
    }
  }

  /** The step pushes a frame that holds no callback, or leaves the frames alone. */
  lemma QuietLeaks(s: State, r: State)
    requires r.callbacks == s.callbacks && r.freed == s.freed && r.tasks == s.tasks
    requires r.frames == s.frames
             || (|r.frames| == |s.frames| + 1 && r.frames == s.frames + [Top(r)] && !Top(r).CreateFrame?)
    ensures SameHolders(s, r)
  {
    forall k: nat ensures Leaked(r, k) <==> Leaked(s, k) {
      if r.frames != s.frames {
        PushHolders(s, r, Top(r), k);
      }
      assert HeldByFrame(r, k) <==> HeldByFrame(s, k);
      assert HeldByTask(r, k) <==> HeldByTask(s, k);
    }
  }

  lemma EnterQuiet(s: State, frame: Frame, context: nat, r: State)
    requires Enter(s, frame, context) == Ok(r)
    ensures r.callbacks == s.callbacks && r.freed == s.freed && r.tasks == s.tasks && r.frames == s.frames + [frame]
  {
  }

  lemma ResumeLeaks(s: State, cid: int, r: State)
    requires Resume(s, cid) == Ok(r)
    ensures LeaksMove(s, DoResume(cid), r)
  {
    if cid in s.cidMap {
      var c := s.cidMap[cid];
      EnterQuiet(s.(checkPoint := s.next, next := s.next + 1, resumable := s.resumable - {cid}),
                 ResumeFrame(s.checkPoint, s.require, s.regs, c, TaskOf(s, c)), c, r);
    }
    QuietLeaks(s, r);
  }

  lemma DispatchLeaks(s: State, fd: int, r: State)
    requires Dispatch(s, fd) == Ok(r)
    ensures LeaksMove(s, DoDispatch(fd), r)
  {
    if fd in s.table.events && s.table.events[fd].context.Some? {
      var c := s.table.events[fd].context.value;
      var frame := InvokeFrame(fd, AddressOf(s.table, fd), c, TaskOf(s, c));
      EnterQuiet(s.(table := Registry.Free(s.table, fd)), frame, c, r);
    }
    QuietLeaks(s, r);
  }

  /** How a returning frame settles its callback copy, if it has one. */
  ghost predicate SettlesTop(m: State, r: State) {
    && m.frames != [] && m.frames == r.frames + [Top(m)] && r.callbacks == m.callbacks
    && if Top(m).CreateFrame? then Settled(m, r) else r.tasks == m.tasks && r.freed == m.freed
  }

  /** A returning create passes its own copy on, over the one its task holds. */
  lemma SettleLeaks(m: State, r: State, k: nat)
    requires SettlesTop(m, r) && FrameCallbacks(m) && TaskCallbacks(m)
    ensures Leaked(r, k) <==> Leaked(m, k) || SettlesOver(m, k)
  {
    PushHolders(r, m, Top(m), k);
    if Top(m).CreateFrame? && Top(m).task in m.tasks {
      SettleHolders(m, r, Top(m).task, Top(m).callback, k);
      if SettlesOver(m, k) {
        SettledOverIsUnheld(m, k);
      }
    } else {
      assert HeldByTask(r, k) <==> HeldByTask(m, k);
    }
  }

  /** What a returning frame does with callbacks. */
  lemma ReturnSettles(m: State, r: State)
    requires CanReturn(m) && Return(m) == Ok(r)
    ensures SettlesTop(m, r)
  {
    ReturnCases(m);
  }

  lemma SettledOverIsUnheld(m: State, k: nat)
    requires FrameCallbacks(m) && TaskCallbacks(m) && SettlesOver(m, k)
    ensures k in m.callbacks && k !in m.freed && !HeldByFrame(m, k) && k != Top(m).callback
  {
  }

  lemma EndTasks(s: State, m: State, t: nat, k: nat)
    requires t in s.tasks && m.tasks == s.tasks - {t} && TaskCallbacks(s)
    ensures HeldByTask(m, k) <==> HeldByTask(s, k) && !TaskHolds(s, t, k)
  {
    if HeldByTask(s, k) && !TaskHolds(s, t, k) {
      var u :| u in s.tasks && s.tasks[u].callback == Some(k);
      assert TaskHolds(m, u, k);
    }
    if HeldByTask(m, k) {
      var u :| u in m.tasks && m.tasks[u].callback == Some(k);
      assert TaskHolds(s, u, k);
    }
  }

  /** A coroutine that suspends holds the same callbacks as before; one that ends has had
      its own copy freed. */
  lemma OutHolders(s: State, a: Action, m: State, k: nat)
    requires GoesOut(s, a, m) && TaskCallbacks(s)
    ensures Leaked(m, k) <==> Leaked(s, k)
    ensures SettlesOver(m, k) <==> !a.DoEnd? && SettlesOver(s, k)
  {
    if a.DoEnd? {
      EndTasks(s, m, Top(s).task, k);
    } else {
      assert HeldByTask(m, k) <==> HeldByTask(s, k);
    }
    assert HeldByFrame(m, k) <==> HeldByFrame(s, k);
  }

  lemma LeaveLeaks(s: State, a: Action, m: State, r: State)
    requires GoesOut(s, a, m) && Return(m) == Ok(r) && TaskCallbacks(s) && Leaves(s, a)
    ensures LeaksMove(s, a, r)
  {
    ReturnSettles(m, r);
    forall k: nat ensures Leaked(r, k) <==> Leaked(s, k) || Overwrites(s, a, k) {
      OutHolders(s, a, m, k);
      SettleLeaks(m, r, k);
    }
  }

  lemma StepLeaks(s: State, a: Action, r: State)
    requires Inv(s) && Disciplined(s, a) && IdLeft(s, a) && Step(s, a) == Ok(r)
    ensures LeaksMove(s, a, r)
  {
    if Leaves(s, a) {
      var m := WayOut(s, a);
      LeaveLeaks(s, a, m, r);
    } else {
      match a
      case DoCreate(_, _, _) => CreateLeaks(s, a, r);
      case DoResume(cid) => ResumeLeaks(s, cid, r);
      case DoDispatch(fd) => DispatchLeaks(s, fd, r);
      case _ => QuietLeaks(s, r);
    }
  }

  // ----- whole runs

  ghost predicate EverOverwritten(ss: seq<State>, acts: seq<Action>, n: nat, k: nat)
    requires n <= |acts| && n <= |ss|
  {
    exists j :: 0 <= j < n && Overwrites(ss[j], acts[j], k)
  }

  lemma {:induction false} LeakedIffOverwritten(ss: seq<State>, acts: seq<Action>, n: nat, k: nat)
    requires n <= |acts| < |ss| && !Leaked(ss[0], k)
    requires forall i | 0 <= i < n :: LeaksMove(ss[i], acts[i], ss[i + 1])
    ensures Leaked(ss[n], k) <==> EverOverwritten(ss, acts, n, k)
  {
    if n > 0 {
      LeakedIffOverwritten(ss, acts, n - 1, k);
      assert LeaksMove(ss[n - 1], acts[n - 1], ss[n - 1 + 1]);
      if EverOverwritten(ss, acts, n - 1, k) {
        var j :| 0 <= j < n - 1 && Overwrites(ss[j], acts[j], k);
        assert 0 <= j < n && Overwrites(ss[j], acts[j], k);
      }
    }
  }

  lemma RunLeaks(ss: seq<State>, acts: seq<Action>, n: nat, k: nat)
    requires Run(ss, acts) && IdsLeft(ss, acts, n)
    ensures Leaked(ss[n], k) <==> EverOverwritten(ss, acts, n, k)
  {
    forall i | 0 <= i < n ensures LeaksMove(ss[i], acts[i], ss[i + 1]) {
      RunStep(ss, acts, i);
      StepLeaks(ss[i], acts[i], ss[i + 1]);
    }
    assert !Leaked(ss[0], k);
    LeakedIffOverwritten(ss, acts, n, k);
  }

  /** The fate of every callback copy, in every run, with refused creates and without: it
      is held by one create in progress, or held by one live task, or was freed, once, or
      is lost; exactly one of the four.  It is lost if and only if some step settled
      another copy on the task that held it. */
  lemma CallbackFate(ss: seq<State>, acts: seq<Action>, n: nat, k: nat)
    requires Run(ss, acts) && IdsLeft(ss, acts, n) && k in ss[n].callbacks
    ensures ss[n].freed[k] <= 1
    ensures ss[n].freed[k] == 1 <==>
            !HeldByFrame(ss[n], k) && !HeldByTask(ss[n], k) && !EverOverwritten(ss, acts, n, k)
    ensures !(HeldByFrame(ss[n], k) && HeldByTask(ss[n], k))
    ensures EverOverwritten(ss, acts, n, k) ==>
              !HeldByFrame(ss[n], k) && !HeldByTask(ss[n], k) && ss[n].freed[k] == 0
    ensures forall t, u | TaskHolds(ss[n], t, k) && TaskHolds(ss[n], u, k) :: t == u
    ensures forall i, j | FrameHolds(ss[n], i, k) && FrameHolds(ss[n], j, k) :: i == j
  {
    RunCapped(ss, acts, n);
    RunLeaks(ss, acts, n, k);
    Holders(ss[n], k);
  }

  lemma Holders(s: State, k: nat)
    requires FrameCallbacks(s) && TaskCallbacks(s)
    ensures s.freed[k] <= 1
    ensures s.freed[k] == 1 ==> !HeldByFrame(s, k) && !HeldByTask(s, k)
    ensures !(HeldByFrame(s, k) && HeldByTask(s, k))
    ensures forall t, u | TaskHolds(s, t, k) && TaskHolds(s, u, k) :: t == u
    ensures forall i, j | FrameHolds(s, i, k) && FrameHolds(s, j, k) :: i == j
  {
  }

  /** Only a refused create gives a callback to a task whose own create is in progress. */
  lemma OverwriteNeedsRefusal(s: State, a: Action, r: State, k: nat)
    requires Overwrites(s, a, k) && CountersMove(s, a, r) && Unsettled(s)
    requires a.DoCreate? ==> r.refused > s.refused
    ensures r.refused > 0
  {
  }

  lemma RefusalCounts(s: State, a: Action, r: State)
    requires a.DoCreate? && AtCap(s) && NrFree(s.cids) > 0 && WellFormed(s.cids) && Step(s, a) == Ok(r)
    ensures r.refused > s.refused
  {
    CreateRefused(s, a.vm, a.ex, a.retPtr, r);
  }

  lemma StepOverwriteNeedsRefusal(s: State, a: Action, r: State, k: nat)
    requires Counted(s) && Unsettled(s) && IdLeft(s, a) && Step(s, a) == Ok(r) && Overwrites(s, a, k)
    ensures r.refused > 0
  {
    if a.DoCreate? {
      RefusalCounts(s, a, r);
    }
    StepCounters(s, a, r);
    OverwriteNeedsRefusal(s, a, r, k);
  }

  lemma RunOverwriteNeedsRefusal(ss: seq<State>, acts: seq<Action>, j: nat, n: nat, k: nat)
    requires Run(ss, acts) && j < n && IdsLeft(ss, acts, n) && Overwrites(ss[j], acts[j], k)
    ensures ss[n].refused > 0
  {
    RunStep(ss, acts, j);
    StepOverwriteNeedsRefusal(ss[j], acts[j], ss[j + 1], k);
    RefusalsStay(ss, acts, j + 1, n);
  }

  lemma {:induction false} RefusalsStay(ss: seq<State>, acts: seq<Action>, j: nat, n: nat)
    requires Linked(ss, acts) && j <= n < |ss|
    ensures ss[j].refused <= ss[n].refused
    decreases n
  {
    if j < n {
      RefusalsStay(ss, acts, j, n - 1);
      RunCounters(ss, acts, n - 1);
    }
  }

  /** Without refused creates nothing is lost: a copy has been freed if and only if no
      create in progress and no live task holds it, and then once; when nothing is left
      running every copy has been freed. */
  lemma CallbackReleasedOnce(ss: seq<State>, acts: seq<Action>, n: nat, k: nat)
    requires Run(ss, acts) && IdsLeft(ss, acts, n) && ss[n].refused == 0 && k in ss[n].callbacks
    ensures ss[n].freed[k] <= 1
    ensures ss[n].freed[k] == 1 <==> !HeldByFrame(ss[n], k) && !HeldByTask(ss[n], k)
    ensures ss[n].frames == [] && ss[n].tasks == map[] ==> ss[n].freed[k] == 1
  {
    CallbackFate(ss, acts, n, k);
    if EverOverwritten(ss, acts, n, k) {
      var j :| 0 <= j < n && Overwrites(ss[j], acts[j], k);
      RunOverwriteNeedsRefusal(ss, acts, j, n, k);
    }
  }

  /** When the create that made a coroutine returns, at any depth: after a suspension
      `current_coro` is that coroutine, which gets the callback; after an end it is null,
      and the callback is freed. */
  lemma CreateSettlesCallback(s: State, a: Action, r: State)
    requires Inv(s) && Disciplined(s, a) && Leaves(s, a) && Step(s, a) == Ok(r)
    requires s.frames != [] && Top(s).CreateFrame?
    ensures if a.DoEnd? then
              && Top(s).task in s.tasks && Top(s).task !in r.tasks
              && r.freed == s.freed + Owed(s.tasks[Top(s).task]) + multiset{Top(s).callback}
            else
              && Top(s).task in r.tasks && r.tasks[Top(s).task].callback == Some(Top(s).callback)
              && r.freed == s.freed
  {
    var m := WayOut(s, a);
    ReturnSettles(m, r);
  }
}
