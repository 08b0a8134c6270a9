/** Leaving a coroutine: saving or closing it, the jump, and what its C frame restores. */
module LeavingSteps {
  import opened Options
  import opened Machine
  import opened Invariants

  function Top(s: State): Frame
    requires s.frames != []
  {
    s.frames[|s.frames| - 1]
  }

  // ----- the innermost C frame returns

  function Without(m: map<nat, Regs>, c: Option<nat>): map<nat, Regs> {
    match c
    case Some(k) => m - {k}
    case None => m
  }

  /** The context a frame on its way out gives back. */
  function ReleasedBy(f: Frame): multiset<nat> {
    match ContextOf(f)
    case Some(c) => multiset{c}
    case None => multiset{}
  }

  /** What a return leaves alone, and what it does to contexts and frames. */
  ghost predicate Popped(s: State, r: State) {
    && s.frames != []
    && r.frames == s.frames[..|s.frames| - 1]
    && r.contexts == Without(s.contexts, ContextOf(Top(s)))
    && r.released == s.released + ReleasedBy(Top(s))
    && r.tasks.Keys == s.tasks.Keys
    && (forall t | t in s.tasks :: r.tasks[t].cid == s.tasks[t].cid)
    && r.cids == s.cids && r.coroNum == s.coroNum && r.maxCoroNum == s.maxCoroNum && r.origin == s.origin
    && r.cidMap == s.cidMap && r.table == s.table && r.next == s.next && r.refused == s.refused
    && r.resumable == s.resumable && r.place == s.place && r.resumed == s.resumed
    && r.callbacks == s.callbacks
  }

  /** What a return does to the checkpoint, the registers and `require`. */
  ghost predicate Restored(s: State, r: State)
    requires s.frames != []
  {
    if Top(s).InvokeFrame? then
      r.jmp == s.jmp && r.checkPoint == s.checkPoint && r.regs == s.regs && !r.require
    else
      && r.jmp == s.jmp - {s.checkPoint} && r.checkPoint == Top(s).prev
      && r.regs == Top(s).saved && r.require == Top(s).required
  }

  lemma CreateReturns(s: State)
    requires s.frames != [] && Top(s).CreateFrame? && s.checkPoint in s.jmp
    requires if s.regs.task.Some? then s.regs.task.value in s.tasks else Top(s).callback !in s.freed
    ensures Return(s).Ok? && Popped(s, Return(s).state) && Restored(s, Return(s).state)
    ensures match s.regs.task
            case None => Return(s).state.tasks == s.tasks
                         && Return(s).state.freed == s.freed + multiset{Top(s).callback}
            case Some(t) => Return(s).state.freed == s.freed && t in s.tasks
                            && Return(s).state.tasks == s.tasks[t := s.tasks[t].(callback := Some(Top(s).callback))]
  {
  }

  lemma ResumeReturns(s: State)
    requires s.frames != [] && Top(s).ResumeFrame? && s.checkPoint in s.jmp && Top(s).context in s.contexts
    ensures Return(s).Ok? && Popped(s, Return(s).state) && Restored(s, Return(s).state)
    ensures Return(s).state.tasks == s.tasks && Return(s).state.freed == s.freed
  {
  }

  lemma InvokeReturns(s: State)
    requires s.frames != [] && Top(s).InvokeFrame? && Top(s).context in s.contexts
    ensures Return(s).Ok? <==> EntryThere(s)
    ensures Return(s).Ok? ==> Popped(s, Return(s).state) && Restored(s, Return(s).state)
    ensures Return(s).Ok? ==> Return(s).state.tasks == s.tasks && Return(s).state.freed == s.freed
  {
  }

  lemma PopFrames(s: State, r: State)
    requires Popped(s, r) && FramesOwned(s, |s.frames| - 1)
    ensures FramesOwned(r, |r.frames|)
  {
  }

  lemma PopContexts(s: State, r: State)
    requires Popped(s, r) && ContextsOwned(s, |s.frames| - 1, ContextOf(Top(s)))
    ensures ContextsOwned(r, |r.frames|, None)
  {
  }

  lemma PopFds(s: State, r: State)
    requires Popped(s, r) && FdsOwned(s) && ContextsOwned(s, |s.frames| - 1, ContextOf(Top(s)))
    ensures FdsOwned(r)
  {
  }

  lemma PopCids(s: State, r: State)
    requires Popped(s, r) && CidsOwned(s, ContextOf(Top(s))) && ContextsOwned(s, |s.frames| - 1, ContextOf(Top(s)))
    ensures CidsOwned(r, None)
  {
  }

  lemma PopBuffers(s: State, r: State)
    requires Popped(s, r) && Restored(s, r) && Chain(s)
    ensures forall d | 0 <= d < |s.frames| :: BufferAt(r, d) == BufferAt(s, d)
  {
    var n := |s.frames| - 1;
    assert BufferAt(s, n + 1) == s.checkPoint;
    assert r.checkPoint == BufferAt(s, n);
  }

  lemma PopChain(s: State, r: State)
    requires Popped(s, r) && Restored(s, r) && Chain(s)
    ensures Chain(r)
  {
    PopBuffers(s, r);
    assert BufferAt(s, |s.frames|) == s.checkPoint;
  }

  lemma PopSaved(s: State, r: State)
    requires Popped(s, r) && Restored(s, r) && Chain(s) && Saved(s)
    ensures Saved(r) && Running(r)
  {
  }

  /** How a returning create settles its callback copy. */
  ghost predicate Settled(s: State, r: State)
    requires s.frames != [] && Top(s).CreateFrame?
  {
    && r.frames == s.frames[..|s.frames| - 1] && r.callbacks == s.callbacks && r.refused == s.refused
    && if Top(s).task in s.tasks
       then r.tasks == s.tasks[Top(s).task := s.tasks[Top(s).task].(callback := Some(Top(s).callback))]
            && r.freed == s.freed
       else r.tasks == s.tasks && r.freed == s.freed + multiset{Top(s).callback}
  }

  lemma PopFrameCallbacks(s: State, r: State)
    requires s.frames != [] && Top(s).CreateFrame? && Settled(s, r)
    requires FrameCallbacks(s) && Unsettled(s)
    requires forall i | 0 <= i < |r.frames| :: s.frames[i].task != Top(s).task
    ensures FrameCallbacks(r) && Unsettled(r)
  {
  }

  lemma PopTaskCallbacks(s: State, r: State)
    requires s.frames != [] && Top(s).CreateFrame? && Settled(s, r)
    requires FrameCallbacks(s) && TaskCallbacks(s)
    ensures TaskCallbacks(r)
  {
  }

  lemma PopCreateCallback(s: State, r: State)
    requires s.frames != [] && Top(s).CreateFrame? && Settled(s, r) && CallbacksHeld(s)
    requires forall i | 0 <= i < |r.frames| :: s.frames[i].task != Top(s).task
    ensures CallbacksHeld(r)
  {
    PopFrameCallbacks(s, r);
    PopTaskCallbacks(s, r);
  }

  lemma PopOtherCallback(s: State, r: State)
    requires s.frames != [] && !Top(s).CreateFrame? && CallbacksHeld(s)
    requires r.frames == s.frames[..|s.frames| - 1] && r.callbacks == s.callbacks
    requires r.tasks == s.tasks && r.freed == s.freed && r.refused == s.refused
    ensures CallbacksHeld(r)
  {
  }

  lemma PopWoken(s: State, r: State)
    requires Popped(s, r) && WokenOnce(s)
    requires ContextOf(Top(s)).Some? ==> ContextOf(Top(s)).value in s.contexts
    ensures WokenOnce(r)
  {
  }

  lemma PopPointers(s: State, r: State)
    requires Popped(s, r) && Restored(s, r) && PointersBelow(s)
    requires ContextOf(Top(s)).Some? ==> ContextOf(Top(s)).value in s.contexts
    ensures PointersBelow(r)
  {
  }

  lemma PopCounted(s: State, r: State)
    requires Popped(s, r) && Counted(s)
    ensures Counted(r)
  {
  }

  lemma PopIssued(s: State, r: State)
    requires Popped(s, r) && CidsIssued(s)
    ensures CidsIssued(r)
  {
  }

  lemma BufferAllocated(s: State)
    requires Chain(s) && s.frames != []
    ensures s.checkPoint in s.jmp
  {
    assert BufferAt(s, |s.frames|) == s.checkPoint;
  }

  /** What a return needs of the state it starts from. */
  ghost predicate CanReturn(m: State) {
    && m.frames != [] && m.checkPoint in m.jmp
    && (ContextOf(Top(m)).Some? ==> ContextOf(Top(m)).value in m.contexts)
    && (if Top(m).task in m.tasks then m.regs.task == Some(Top(m).task) else m.regs.task == None)
    && (Top(m).CreateFrame? ==> Top(m).callback !in m.freed)
  }

  lemma LeavingCanReturn(m: State)
    requires Leaving(m)
    ensures CanReturn(m) && FrameCallbacks(m) && TaskCallbacks(m)
  {
    BufferAllocated(m);
  }

  lemma ReturnCases(s: State)
    requires CanReturn(s)
    ensures Return(s).Ok? <==> EntryThere(s)
    ensures Return(s).Ok? ==> Popped(s, Return(s).state) && Restored(s, Return(s).state)
    ensures Return(s).Ok? ==>
              if Top(s).CreateFrame? then Settled(s, Return(s).state)
              else Return(s).state.tasks == s.tasks && Return(s).state.freed == s.freed
  {
    match Top(s)
    case CreateFrame(_, _, _, _, _) => CreateReturns(s);
    case ResumeFrame(_, _, _, _, _) => ResumeReturns(s);
    case InvokeFrame(_, _, _, _) => InvokeReturns(s);
  }

  lemma ReturnCallbacks(s: State, r: State)
    requires Popped(s, r) && CallbacksHeld(s) && FramesOwned(s, |s.frames| - 1)
    requires Top(s).task in s.place ==> !s.place[Top(s).task].Active?
    requires if Top(s).CreateFrame? then Settled(s, r) else r.tasks == s.tasks && r.freed == s.freed
    ensures CallbacksHeld(r)
  {
    if Top(s).CreateFrame? {
      PopCreateCallback(s, r);
    } else {
      PopOtherCallback(s, r);
    }
  }

  lemma PopEntries(s: State, r: State)
    requires Popped(s, r) && EntriesAddressed(s)
    ensures EntriesAddressed(r)
  {
  }

  lemma ReturnKeeps(s: State)
    requires Leaving(s) && EntryThere(s)
    ensures Return(s).Ok? && Inv(Return(s).state)
    ensures Popped(s, Return(s).state) && Restored(s, Return(s).state)
  {
    LeavingCanReturn(s);
    ReturnCases(s);
    var r := Return(s).state;
    ReturnCallbacks(s, r);
    PopFrames(s, r);
    PopContexts(s, r);
    PopFds(s, r);
    PopCids(s, r);
    PopChain(s, r);
    PopSaved(s, r);
    PopPointers(s, r);
    PopCounted(s, r);
    PopIssued(s, r);
    PopWoken(s, r);
    PopEntries(s, r);
  }
}
