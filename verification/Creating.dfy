/** Creating a coroutine, admitted or refused. */
module CreatingSteps {
  import opened Options
  import opened CidSpec
  import opened Machine
  import opened Invariants
  import opened EnteringSteps

  /** What both outcomes of a create do: the next free id is taken, for good. */
  ghost predicate TookCid(s: State, r: State, cid: int) {
    && 1 <= cid <= MAX_CID && cid - 1 !in s.cids.used
    && r.cids == CidState(s.cids.used + {cid - 1}, cid - 1)
  }

  lemma AllocTakes(s: State)
    requires WellFormed(s.cids) && NrFree(s.cids) > 0
    ensures var (cid, cids) := AllocCid(s.cids);
      && 1 <= cid <= MAX_CID && cid - 1 !in s.cids.used
      && cids == CidState(s.cids.used + {cid - 1}, cid - 1) && WellFormed(cids)
      && CidStep(s.cids, Issue(cid - 1), cids)
  {
    CounterAgrees(s.cids);
    NextFreeIsNearest(s.cids);
  }

  // ----- admitted

  ghost predicate CreatedAs(s: State, r: State, frame: Frame, t: nat, cid: int) {
    && t == s.next + 2 && frame.CreateFrame? && frame.task == t && frame.callback == s.next
    && r.frames == s.frames + [frame]
    && r.tasks == s.tasks[t := Task(cid, None)]
    && r.place == s.place[t := Active(|s.frames|)]
    && r.next == s.next + 3
    && r.callbacks == s.callbacks + {s.next} && r.freed == s.freed
    && r.coroNum == s.coroNum + 1 && r.maxCoroNum == s.maxCoroNum && r.origin == s.origin
    && r.contexts == s.contexts && r.cidMap == s.cidMap && r.resumable == s.resumable && r.table == s.table
    && r.refused == s.refused && r.resumed == s.resumed && r.released == s.released
    && r.require && r.regs.task == Some(t)
  }

  lemma CreateFrames(s: State, r: State, frame: Frame, t: nat, cid: int)
    requires CreatedAs(s, r, frame, t, cid) && FramesOwned(s, |s.frames|) && t !in s.tasks
    ensures FramesOwned(r, |r.frames|)
  {
  }

  lemma CreateContexts(s: State, r: State, frame: Frame, t: nat, cid: int)
    requires CreatedAs(s, r, frame, t, cid) && t !in s.tasks
    requires FramesOwned(s, |s.frames|) && ContextsOwned(s, |s.frames|, None)
    ensures ContextsOwned(r, |r.frames|, None)
  {
    var n := |s.frames|;
    forall u | u in r.place ensures OwnsContext(r, n + 1, None, u) {
      if u != t {
        assert OwnsContext(s, n, None, u) && ContextAt(r, n + 1, u) == ContextAt(s, n, u);
      }
    }
    forall c | c in r.contexts ensures ContextHeld(r, n + 1, c) {
      assert ContextHeld(s, n, c);
    }
  }

  lemma CreateFds(s: State, r: State, frame: Frame, t: nat, cid: int)
    requires CreatedAs(s, r, frame, t, cid) && t !in s.place && FdsOwned(s)
    ensures FdsOwned(r)
  {
  }

  lemma CreateCids(s: State, r: State, frame: Frame, t: nat, cid: int)
    requires CreatedAs(s, r, frame, t, cid) && t !in s.place && t !in s.tasks && CidsOwned(s, None)
    ensures CidsOwned(r, None)
  {
  }

  lemma CreateCounted(s: State, r: State, frame: Frame, t: nat, cid: int)
    requires CreatedAs(s, r, frame, t, cid) && TookCid(s, r, cid) && t !in s.tasks
    requires Counted(s) && WellFormed(r.cids)
    ensures Counted(r)
  {
  }

  lemma CreateIssued(s: State, r: State, t: nat, cid: int)
    requires TookCid(s, r, cid) && t !in s.tasks && r.tasks == s.tasks[t := Task(cid, None)] && CidsIssued(s)
    ensures CidsIssued(r)
  {
  }

  lemma CreateDistinct(s: State, r: State, frame: Frame, t: nat, cid: int)
    requires CreatedAs(s, r, frame, t, cid) && t !in s.tasks && s.next !in s.callbacks
    requires CallbacksHeld(s)
    requires forall i | 0 <= i < |s.frames| :: s.frames[i].task != t
    ensures CallbacksHeld(r)
  {
  }

  lemma CreateRest(s: State, r: State, frame: Frame, t: nat, cid: int)
    requires CreatedAs(s, r, frame, t, cid) && PointersBelow(s) && WokenOnce(s)
    requires forall b | b in r.jmp :: b < r.next
    ensures PointersBelow(r) && WokenOnce(r)
  {
  }

  lemma CreateEntries(s: State, r: State, frame: Frame, t: nat, cid: int)
    requires CreatedAs(s, r, frame, t, cid) && EntriesAddressed(s)
    ensures EntriesAddressed(r)
  {
  }

  lemma CreateOwned(s: State, r: State, frame: Frame, t: nat, cid: int)
    requires CreatedAs(s, r, frame, t, cid) && t !in s.tasks && Owned(s, |s.frames|, None)
    ensures Owned(r, |r.frames|, None)
  {
    CreateFrames(s, r, frame, t, cid);
    CreateContexts(s, r, frame, t, cid);
    CreateFds(s, r, frame, t, cid);
    CreateCids(s, r, frame, t, cid);
  }

  lemma CreateCore(s: State, r: State, frame: Frame, t: nat, cid: int)
    requires CreatedAs(s, r, frame, t, cid) && TookCid(s, r, cid) && PushedBuffer(s, r, frame)
    requires PointersBelow(s) && Chain(s) && Saved(s) && Running(s) && WokenOnce(s)
    ensures PointersBelow(r) && Chain(r) && Saved(r) && WokenOnce(r)
  {
    PushChain(s, r, frame);
    PushSaved(s, r, frame);
    CreateRest(s, r, frame, t, cid);
  }

  lemma CreateCallbacks(s: State, r: State, frame: Frame, t: nat, cid: int)
    requires CreatedAs(s, r, frame, t, cid) && t !in s.tasks && PointersBelow(s) && CallbacksHeld(s)
    requires FramesOwned(s, |s.frames|)
    ensures CallbacksHeld(r)
  {
    CreateDistinct(s, r, frame, t, cid);
  }

  lemma CreatedKeeps(s: State, r: State, frame: Frame, t: nat, cid: int)
    requires Inv(s) && AdmittedAs(s, r, frame, t, cid)
    ensures Inv(r)
  {
    CreateOwned(s, r, frame, t, cid);
    CreateCounted(s, r, frame, t, cid);
    CreateIssued(s, r, t, cid);
    CreateCore(s, r, frame, t, cid);
    CreateCallbacks(s, r, frame, t, cid);
    CreateEntries(s, r, frame, t, cid);
  }

  // ----- refused

  /** A refused create's callback copy goes to the task `current_coro` points to, over the
      one that task may hold, or is freed. */
  ghost predicate SettledOn(s: State, r: State) {
    match s.regs.task
    case None => r.tasks == s.tasks && r.freed == s.freed + multiset{s.next}
    case Some(t) =>
      t in s.tasks && r.tasks == s.tasks[t := s.tasks[t].(callback := Some(s.next))] && r.freed == s.freed
  }

  /** A refused create changes the id map, the history and the holder of its callback. */
  ghost predicate RefusedAs(s: State, r: State, cid: int) {
    && TookCid(s, r, cid)
    && r == s.(cids := r.cids, next := r.next, callbacks := r.callbacks, refused := r.refused,
               freed := r.freed, tasks := r.tasks)
    && r.next == s.next + 3 && r.refused == s.refused + 1
    && r.callbacks == s.callbacks + {s.next}
    && SettledOn(s, r)
    && r.tasks.Keys == s.tasks.Keys
    && (forall t | t in s.tasks :: r.tasks[t].cid == s.tasks[t].cid)
  }

  lemma RefuseContexts(s: State, r: State, cid: int)
    requires RefusedAs(s, r, cid) && ContextsOwned(s, |s.frames|, None)
    ensures ContextsOwned(r, |r.frames|, None)
  {
    var n := |s.frames|;
    forall u | u in r.place ensures OwnsContext(r, n, None, u) {
      assert OwnsContext(s, n, None, u);
    }
    forall c | c in r.contexts ensures ContextHeld(r, n, c) {
      assert ContextHeld(s, n, c);
    }
  }

  lemma RefuseFds(s: State, r: State, cid: int)
    requires RefusedAs(s, r, cid) && FdsOwned(s)
    ensures FdsOwned(r)
  {
    forall x | x in r.table.events && r.table.events[x].context.Some?
      ensures WaiterHolds(r, x, r.table.events[x].context.value)
    {
      assert WaiterHolds(s, x, s.table.events[x].context.value);
    }
  }

  lemma RefuseOwned(s: State, r: State, cid: int)
    requires RefusedAs(s, r, cid) && Owned(s, |s.frames|, None)
    ensures Owned(r, |r.frames|, None)
  {
    RefuseContexts(s, r, cid);
    RefuseFds(s, r, cid);
    RefuseCids(s, r, cid);
  }

  lemma RefuseCids(s: State, r: State, cid: int)
    requires RefusedAs(s, r, cid) && CidsOwned(s, None)
    ensures CidsOwned(r, None)
  {
  }

  lemma RefuseCounted(s: State, r: State, cid: int)
    requires RefusedAs(s, r, cid) && WellFormed(r.cids) && Counted(s)
    ensures Counted(r)
  {
  }

  lemma RefuseIssued(s: State, r: State, cid: int)
    requires RefusedAs(s, r, cid) && CidsIssued(s)
    ensures CidsIssued(r)
  {
  }

  lemma RefuseRest(s: State, r: State, cid: int)
    requires RefusedAs(s, r, cid)
    requires PointersBelow(s) && Chain(s) && Saved(s) && WokenOnce(s)
    ensures PointersBelow(r) && Chain(r) && Saved(r) && WokenOnce(r)
  {
    assert forall d | 0 <= d <= |s.frames| :: BufferAt(r, d) == BufferAt(s, d);
  }

  lemma RefuseFrameCallbacks(s: State, r: State, cid: int)
    requires RefusedAs(s, r, cid) && PointersBelow(s) && FrameCallbacks(s)
    ensures FrameCallbacks(r) && Unsettled(r)
  {
  }

  lemma RefuseTaskCallbacks(s: State, r: State, cid: int)
    requires RefusedAs(s, r, cid) && PointersBelow(s) && TaskCallbacks(s)
    ensures TaskCallbacks(r)
  {
  }

  lemma RefusedKeeps(s: State, r: State, cid: int)
    requires Inv(s) && RefusedAs(s, r, cid) && WellFormed(r.cids)
    ensures Inv(r)
  {
    RefuseOwned(s, r, cid);
    RefuseCounted(s, r, cid);
    RefuseIssued(s, r, cid);
    RefuseRest(s, r, cid);
    RefuseFrameCallbacks(s, r, cid);
    RefuseTaskCallbacks(s, r, cid);
  }

  // ----- both

  /** The callback copy of a refused create can be settled. */
  ghost predicate CanSettle(s: State) {
    if s.regs.task.Some? then s.regs.task.value in s.tasks else s.next !in s.freed
  }

  lemma CreateRefuses(s: State, vm: Vm, ex: Exec, retPtr: nat) returns (r: State)
    requires WellFormed(s.cids) && NrFree(s.cids) > 0 && AtCap(s) && CanSettle(s)
    ensures Create(s, vm, ex, retPtr) == Ok(r)
    ensures WellFormed(r.cids) && RefusedAs(s, r, NextFree(s.cids) + 1)
  {
    AllocTakes(s);
    r := Create(s, vm, ex, retPtr).state;
  }

  lemma CreateRefused(s: State, vm: Vm, ex: Exec, retPtr: nat, r: State)
    requires WellFormed(s.cids) && NrFree(s.cids) > 0 && AtCap(s)
    requires Create(s, vm, ex, retPtr) == Ok(r)
    ensures CanSettle(s) && RefusedAs(s, r, NextFree(s.cids) + 1)
  {
    AllocTakes(s);
    var r' := CreateRefuses(s, vm, ex, retPtr);
  }

  ghost predicate AdmittedAs(s: State, r: State, frame: Frame, t: nat, cid: int) {
    CreatedAs(s, r, frame, t, cid) && TookCid(s, r, cid) && PushedBuffer(s, r, frame) && WellFormed(r.cids)
  }

  lemma CreateAdmits(s: State, vm: Vm, ex: Exec, retPtr: nat)
    requires WellFormed(s.cids) && NrFree(s.cids) > 0 && !AtCap(s)
    ensures Create(s, vm, ex, retPtr).Ok?
    ensures AdmittedAs(s, Create(s, vm, ex, retPtr).state,
                       CreateFrame(s.checkPoint, s.require, s.regs, s.next, s.next + 2), s.next + 2,
                       NextFree(s.cids) + 1)
  {
    AllocTakes(s);
  }

  lemma Admitted(s: State, vm: Vm, ex: Exec, retPtr: nat) returns (r: State, frame: Frame, t: nat, cid: int)
    requires WellFormed(s.cids) && NrFree(s.cids) > 0 && !AtCap(s)
    ensures Create(s, vm, ex, retPtr) == Ok(r) && AdmittedAs(s, r, frame, t, cid)
  {
    CreateAdmits(s, vm, ex, retPtr);
    r, t, cid := Create(s, vm, ex, retPtr).state, s.next + 2, NextFree(s.cids) + 1;
    frame := CreateFrame(s.checkPoint, s.require, s.regs, s.next, t);
  }

  lemma AdmittingKeeps(s: State, vm: Vm, ex: Exec, retPtr: nat)
    requires Inv(s) && NrFree(s.cids) > 0 && !AtCap(s)
    ensures Create(s, vm, ex, retPtr).Ok? && Inv(Create(s, vm, ex, retPtr).state)
  {
    var r, frame, t, cid := Admitted(s, vm, ex, retPtr);
    CreatedKeeps(s, r, frame, t, cid);
  }

  lemma RefusingKeeps(s: State, vm: Vm, ex: Exec, retPtr: nat)
    requires Inv(s) && NrFree(s.cids) > 0 && AtCap(s) && CanSettle(s)
    ensures Create(s, vm, ex, retPtr).Ok? && Inv(Create(s, vm, ex, retPtr).state)
  {
    var r := CreateRefuses(s, vm, ex, retPtr);
    RefusedKeeps(s, r, NextFree(s.cids) + 1);
  }

  lemma AliveCanSettle(s: State, a: Action)
    requires a.DoCreate? && AtCap(s) && !HitsDeadTask(s, a) && PointersBelow(s) && TaskCallbacks(s)
    ensures CanSettle(s)
  {
  }

  lemma CreateKeeps(s: State, vm: Vm, ex: Exec, retPtr: nat)
    requires Inv(s) && NrFree(s.cids) > 0 && !HitsDeadTask(s, DoCreate(vm, ex, retPtr))
    ensures Create(s, vm, ex, retPtr).Ok? && Inv(Create(s, vm, ex, retPtr).state)
  {
    if AtCap(s) {
      AliveCanSettle(s, DoCreate(vm, ex, retPtr));
      RefusingKeeps(s, vm, ex, retPtr);
    } else {
      AdmittingKeeps(s, vm, ex, retPtr);
    }
  }
}
