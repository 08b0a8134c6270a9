/** Nested creates and resumes give their callers back exactly what they had. */
module Nesting {
  import opened Registry
  import opened CidSpec
  import opened Machine
  import opened Invariants
  import opened LeavingSteps
  import opened EnteringSteps
  import opened CreatingSteps
  import opened Preservation
  import opened Runs

  /** The step pops the innermost frame, and only that one; a create or resume gives its
      caller back checkpoint, registers and `require`, and a dispatch returns to the
      origin stack with the base checkpoint. */
  ghost predicate ReturnedTo(s: State, r: State)
    requires s.frames != []
  {
    && r.frames == s.frames[..|s.frames| - 1]
    && match Top(s)
       case CreateFrame(prev, required, saved, _, _) =>
         r.checkPoint == prev && r.regs == saved && r.require == required
       case ResumeFrame(prev, required, saved, _, _) =>
         r.checkPoint == prev && r.regs == saved && r.require == required
       case InvokeFrame(_, _, _, _) =>
         r.checkPoint == BASE && r.regs.vm == s.origin && !r.require
  }

  lemma ReturnsTo(s: State, m: State, r: State)
    requires s.frames != [] && Chain(s) && m.frames == s.frames && m.checkPoint == s.checkPoint
    requires m.regs.vm == s.origin && Popped(m, r) && Restored(m, r)
    ensures ReturnedTo(s, r)
  {
    InvokeIsBottom(s);
  }

  /** Every suspension lands in the innermost frame still active. */
  lemma LandsInnermost(s: State, a: Action) returns (r: State)
    requires Inv(s) && Disciplined(s, a) && Leaves(s, a) && EntryThere(s)
    ensures Step(s, a) == Ok(r) && Inv(r) && s.frames != [] && ReturnedTo(s, r)
  {
    var m := WayOut(s, a);
    r := LeaveKeeps(s, a, m);
    ReturnsTo(s, m, r);
  }

  lemma InvokeIsBottom(s: State)
    requires s.frames != [] && Chain(s)
    ensures Top(s).InvokeFrame? ==> |s.frames| == 1 && s.checkPoint == BASE
  {
    assert BufferAt(s, |s.frames|) == s.checkPoint;
  }

  /** The step calls into a coroutine from the code running in `s`. */
  ghost predicate CalledFrom(s: State, r: State) {
    && |r.frames| == |s.frames| + 1
    && r.frames[..|s.frames|] == s.frames
    && match Top(r)
       case CreateFrame(prev, required, saved, _, _) =>
         prev == s.checkPoint && required == s.require && saved == s.regs
       case ResumeFrame(prev, required, saved, _, _) =>
         prev == s.checkPoint && required == s.require && saved == s.regs
       case InvokeFrame(_, _, _, _) => true
  }

  lemma PushedIsCall(s: State, r: State, frame: Frame)
    requires PushedBuffer(s, r, frame)
    ensures CalledFrom(s, r)
  {
  }

  lemma CreateCalls(s: State, a: Action, r: State)
    requires Inv(s) && Disciplined(s, a) && a.DoCreate? && NrFree(s.cids) > 0 && Step(s, a) == Ok(r)
    ensures if AtCap(s) then
              r.frames == s.frames && r.regs == s.regs && r.checkPoint == s.checkPoint && r.require == s.require
            else CalledFrom(s, r) && Top(r).CreateFrame?
  {
    if AtCap(s) {
      CreateRefused(s, a.vm, a.ex, a.retPtr, r);
    } else {
      var r', frame, t, cid := Admitted(s, a.vm, a.ex, a.retPtr);
      PushedIsCall(s, r, frame);
    }
  }

  lemma ResumeCalls(s: State, cid: int, r: State)
    requires Inv(s) && Disciplined(s, DoResume(cid)) && Step(s, DoResume(cid)) == Ok(r)
    ensures if cid in s.cidMap then CalledFrom(s, r) && Top(r).ResumeFrame? else r == s
  {
    if cid in s.cidMap {
      var c, t := ParkedUnder(s, cid);
      ResumePushes(s, cid, c, t, r);
    }
  }

  lemma ResumePushes(s: State, cid: int, c: nat, t: nat, r: State)
    requires 0 <= cid <= MAX_CID && cid in s.cidMap && s.cidMap[cid] == c && Belongs(s, c, t)
    requires InCall(s.contexts[c].ex) && t in s.place && s.place[t] == OnCid(c) && Resume(s, cid) == Ok(r)
    ensures CalledFrom(s, r) && Top(r).ResumeFrame?
  {
    ResumeEnters(s, cid, c, t);
    PushedIsCall(s, r, Top(r));
  }

  lemma EnterCalls(s: State, frame: Frame, c: nat, r: State)
    requires frame.InvokeFrame? && Enter(s, frame, c) == Ok(r)
    ensures CalledFrom(s, r) && Top(r) == frame
  {
  }

  /** The frame is that of a dispatch of the entry `fd` has. */
  predicate DispatchOf(f: Frame, r: Table, fd: int)
    requires f.InvokeFrame?
  {
    f.fd == fd && fd in r.events && f.entry == AddressOf(r, fd)
  }

  lemma DispatchCalls(s: State, fd: int, r: State)
    requires Step(s, DoDispatch(fd)) == Ok(r)
    ensures r.frames == s.frames || (CalledFrom(s, r) && Top(r).InvokeFrame? && DispatchOf(Top(r), s.table, fd))
  {
    if fd in s.table.events && s.table.events[fd].context.Some? {
      var c := s.table.events[fd].context.value;
      var frame := InvokeFrame(fd, AddressOf(s.table, fd), c, TaskOf(s, c));
      EnterCalls(s.(table := Registry.Free(s.table, fd)), frame, c, r);
    }
  }

  ghost predicate StackMoved(s: State, r: State) {
    r.frames == s.frames || CalledFrom(s, r) || (s.frames != [] && ReturnedTo(s, r))
  }

  /** How a step moves the activation stack: it calls, returns from the innermost frame,
      or leaves it alone. */
  lemma StackMoves(s: State, a: Action, r: State)
    requires Inv(s) && Disciplined(s, a) && Step(s, a) == Ok(r) && IdLeft(s, a)
    ensures StackMoved(s, r)
  {
    if Leaves(s, a) {
      StepFaultsIff(s, a);
      var r' := LandsInnermost(s, a);
    } else {
      match a
      case DoCreate(_, _, _) => CreateCalls(s, a, r);
      case DoResume(cid) => ResumeCalls(s, cid, r);
      case DoDispatch(fd) => DispatchCalls(s, fd, r);
      case _ =>
    }
  }

  lemma RunStackMoves(ss: seq<State>, acts: seq<Action>, i: nat)
    requires Run(ss, acts) && i < |acts| && IdsLeft(ss, acts, i + 1)
    ensures StackMoved(ss[i], ss[i + 1])
  {
    RunStep(ss, acts, i);
    StackMoves(ss[i], acts[i], ss[i + 1]);
  }

  lemma RunCalls(ss: seq<State>, acts: seq<Action>, k: nat)
    requires Run(ss, acts) && k < |acts| && IdsLeft(ss, acts, k + 1)
    requires acts[k].DoCreate? || acts[k].DoResume?
    requires |ss[k + 1].frames| > |ss[k].frames|
    ensures CalledFrom(ss[k], ss[k + 1]) && !Top(ss[k + 1]).InvokeFrame?
  {
    RunStep(ss, acts, k);
    if acts[k].DoCreate? {
      CreateCalls(ss[k], acts[k], ss[k + 1]);
    } else {
      ResumeCalls(ss[k], acts[k].cid, ss[k + 1]);
    }
  }

  /** While the code called at step `k` has not returned, the frames below stay as they are. */
  lemma {:induction false} CallerWaits(ss: seq<State>, k: nat, n: nat)
    requires k < n < |ss| && CalledFrom(ss[k], ss[k + 1])
    requires forall j | k < j < n :: StackMoved(ss[j], ss[j + 1])
    requires forall j | k < j <= n :: |ss[j].frames| > |ss[k].frames|
    ensures ss[n].frames[..|ss[k].frames| + 1] == ss[k + 1].frames
    decreases n
  {
    if n > k + 1 {
      CallerWaits(ss, k, n - 1);
      assert StackMoved(ss[n - 1], ss[n - 1 + 1]);
      PrefixStays(ss[n - 1], ss[n], |ss[k].frames| + 1);
    }
  }

  lemma BottomStays(s: State, r: State)
    requires StackMoved(s, r) && s.frames != [] && r.frames != []
    ensures r.frames[0] == s.frames[0]
  {
    if CalledFrom(s, r) {
      assert r.frames[..|s.frames|][0] == s.frames[0];
    }
  }

  lemma PrefixStays(s: State, r: State, d: nat)
    requires StackMoved(s, r) && d <= |s.frames| && d <= |r.frames|
    ensures s.frames[..d] == r.frames[..d]
  {
  }

  /** Nesting restores the caller.  Whatever runs between a create or resume made at step
      `k` and the step `n` at which control is back at the caller's depth -- further
      creates, resumes, yields, waits and ends at any depth -- the caller's VM registers,
      execute data, current task, return-value pointer, `require` and checkpoint are those
      it had when it made the call. */
  lemma NestingRestoresCaller(ss: seq<State>, acts: seq<Action>, k: nat, n: nat)
    requires Run(ss, acts) && k < n < |acts| && IdsLeft(ss, acts, n + 1)
    requires acts[k].DoCreate? || acts[k].DoResume?
    requires |ss[k + 1].frames| > |ss[k].frames|
    requires forall j | k < j <= n :: |ss[j].frames| > |ss[k].frames|
    requires |ss[n + 1].frames| == |ss[k].frames|
    ensures ss[n + 1].regs == ss[k].regs
    ensures ss[n + 1].require == ss[k].require
    ensures ss[n + 1].checkPoint == ss[k].checkPoint
    ensures ss[n + 1].frames == ss[k].frames
  {
    RunCalls(ss, acts, k);
    forall j | k < j < n ensures StackMoved(ss[j], ss[j + 1]) {
      RunStackMoves(ss, acts, j);
    }
    CallerWaits(ss, k, n);
    RunStackMoves(ss, acts, n);
    assert ss[n].frames == ss[k + 1].frames;
  }
}
