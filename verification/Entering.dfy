/** Entering a coroutine: resume, dispatch and create. */
module EnteringSteps {
  import opened Options
  import opened Registry
  import opened Machine
  import opened Invariants

  // ----- resuming the coroutine `t` from its context `c`

  ghost predicate EnteredAs(s: State, r: State, frame: Frame, c: nat, t: nat) {
    && t in s.place && !s.place[t].Active? && s.place[t].context == c
    && !frame.CreateFrame? && frame.task == t && frame.context == c
    && r.frames == s.frames + [frame]
    && r.place == s.place[t := Active(|s.frames|)]
    && r.contexts == s.contexts && r.tasks == s.tasks && r.cidMap == s.cidMap
    && r.cids == s.cids && r.coroNum == s.coroNum && r.maxCoroNum == s.maxCoroNum && r.origin == s.origin
    && r.resumed == s.resumed + multiset{c} && r.released == s.released
    && r.callbacks == s.callbacks && r.freed == s.freed && r.refused == s.refused
    && r.next >= s.next && r.require && r.regs.task == Some(t)
  }

  lemma EnterFrames(s: State, r: State, frame: Frame, c: nat, t: nat)
    requires EnteredAs(s, r, frame, c, t) && FramesOwned(s, |s.frames|)
    ensures FramesOwned(r, |r.frames|)
  {
  }

  lemma EnterContexts(s: State, r: State, frame: Frame, c: nat, t: nat)
    requires EnteredAs(s, r, frame, c, t)
    requires FramesOwned(s, |s.frames|) && ContextsOwned(s, |s.frames|, None)
    ensures ContextsOwned(r, |r.frames|, None)
  {
    var n := |s.frames|;
    forall u | u in r.place
      ensures ContextAt(r, n + 1, u) == ContextAt(s, n, u) && OwnsContext(r, n + 1, None, u)
    {
      assert OwnsContext(s, n, None, u);
    }
    forall d | d in r.contexts ensures ContextHeld(r, n + 1, d) {
      assert ContextHeld(s, n, d);
    }
  }

  lemma EnterWoken(s: State, r: State, frame: Frame, c: nat, t: nat)
    requires EnteredAs(s, r, frame, c, t) && WokenOnce(s) && c in s.contexts
    requires ContextsOwned(s, |s.frames|, None)
    ensures WokenOnce(r)
  {
  }

  lemma EnterPointers(s: State, r: State, frame: Frame, c: nat, t: nat)
    requires EnteredAs(s, r, frame, c, t) && PointersBelow(s) && c in s.contexts
    requires forall b | b in r.jmp :: b < r.next
    ensures PointersBelow(r)
  {
  }

  lemma EnterCallbacks(s: State, r: State, frame: Frame, c: nat, t: nat)
    requires EnteredAs(s, r, frame, c, t) && CallbacksHeld(s)
    ensures CallbacksHeld(r)
  {
  }

  lemma WaiterOwns(s: State, t: nat)
    requires ContextsOwned(s, |s.frames|, None) && t in s.place && !s.place[t].Active?
    ensures s.place[t].context in s.contexts
  {
    assert OwnsContext(s, |s.frames|, None, t);
  }

  lemma EnterKeeps(s: State, r: State, frame: Frame, c: nat, t: nat)
    requires Inv(s) && EnteredAs(s, r, frame, c, t)
    requires Chain(r) && Saved(r) && FdsOwned(r) && CidsOwned(r, None) && Agrees(r.table) && EntriesAddressed(r)
    requires forall b | b in r.jmp :: b < r.next
    ensures Inv(r)
  {
    WaiterOwns(s, t);
    EnterFrames(s, r, frame, c, t);
    EnterContexts(s, r, frame, c, t);
    EnterWoken(s, r, frame, c, t);
    EnterPointers(s, r, frame, c, t);
    EnterCallbacks(s, r, frame, c, t);
  }

  // ----- the checkpoint chain when a frame with its own buffer is pushed

  ghost predicate PushedBuffer(s: State, r: State, frame: Frame) {
    && !frame.InvokeFrame? && frame.prev == s.checkPoint && frame.required == s.require && frame.saved == s.regs
    && r.frames == s.frames + [frame]
    && r.checkPoint >= s.next && r.checkPoint < r.next
    && r.jmp == s.jmp[r.checkPoint := |r.frames|]
  }

  lemma PushBuffers(s: State, r: State, frame: Frame)
    requires PushedBuffer(s, r, frame)
    ensures forall d | 0 <= d <= |s.frames| :: BufferAt(r, d) == BufferAt(s, d)
  {
  }

  lemma PushChain(s: State, r: State, frame: Frame)
    requires PushedBuffer(s, r, frame) && Chain(s) && PointersBelow(s)
    ensures Chain(r)
  {
    PushBuffers(s, r, frame);
  }

  lemma PushSaved(s: State, r: State, frame: Frame)
    requires PushedBuffer(s, r, frame) && Saved(s) && Running(s)
    ensures Saved(r)
  {
  }

  // ----- resume

  lemma ResumeFds(s: State, r: State, frame: Frame, c: nat, t: nat)
    requires EnteredAs(s, r, frame, c, t) && s.place[t].OnCid? && r.table == s.table
    requires FdsOwned(s)
    ensures FdsOwned(r)
  {
  }

  lemma ResumeCids(s: State, r: State, frame: Frame, c: nat, t: nat, cid: int)
    requires EnteredAs(s, r, frame, c, t) && s.place[t].OnCid?
    requires t in s.tasks && s.tasks[t].cid == cid && r.resumable == s.resumable - {cid}
    requires cid in s.cidMap && s.cidMap[cid] == c && Belongs(s, c, t)
    requires CidsOwned(s, None) && CidsIssued(s)
    ensures CidsOwned(r, None)
  {
  }

  lemma ResumeEnters(s: State, cid: int, c: nat, t: nat)
    requires 0 <= cid <= MAX_CID && cid in s.cidMap && s.cidMap[cid] == c && Belongs(s, c, t)
    requires InCall(s.contexts[c].ex) && t in s.place && s.place[t] == OnCid(c)
    ensures Resume(s, cid).Ok?
    ensures var r, frame := Resume(s, cid).state, ResumeFrame(s.checkPoint, s.require, s.regs, c, t);
      && EnteredAs(s, r, frame, c, t) && PushedBuffer(s, r, frame)
      && r.table == s.table && r.resumable == s.resumable - {cid}
  {
  }

  lemma ResumeParts(s: State, r: State, frame: Frame, c: nat, t: nat, cid: int)
    requires EnteredAs(s, r, frame, c, t) && PushedBuffer(s, r, frame)
    requires cid in s.cidMap && s.cidMap[cid] == c && Belongs(s, c, t) && s.place[t].OnCid?
    requires t in s.tasks && s.tasks[t].cid == cid && r.resumable == s.resumable - {cid} && r.table == s.table
    requires Chain(s) && PointersBelow(s) && Saved(s) && Running(s)
    requires FdsOwned(s) && CidsOwned(s, None) && CidsIssued(s)
    requires EntriesAddressed(s)
    ensures Chain(r) && Saved(r) && FdsOwned(r) && CidsOwned(r, None) && EntriesAddressed(r)
    ensures forall b | b in r.jmp :: b < r.next
  {
    PushChain(s, r, frame);
    PushSaved(s, r, frame);
    ResumeFds(s, r, frame, c, t);
    ResumeCids(s, r, frame, c, t, cid);
  }

  /** The fresh map entry of `cid` holds the suspended coroutine of that cid. */
  lemma ParkedUnder(s: State, cid: int) returns (c: nat, t: nat)
    requires ContextsOwned(s, |s.frames|, None) && CidsOwned(s, None)
    requires cid in s.resumable
    ensures YieldedHolds(s, cid) && c == s.cidMap[cid] && Belongs(s, c, t) && InCall(s.contexts[c].ex)
    ensures t in s.place && s.place[t] == OnCid(c) && t in s.tasks && s.tasks[t].cid == cid
  {
    assert YieldedHolds(s, cid);
    c := s.cidMap[cid];
    t := s.contexts[c].task.value;
    assert ContextHeld(s, |s.frames|, c);
  }

  lemma ResumeKeeps(s: State, cid: int)
    requires Inv(s) && Disciplined(s, DoResume(cid))
    ensures Resume(s, cid).Ok? && Inv(Resume(s, cid).state)
  {
    if cid in s.cidMap {
      var c, t := ParkedUnder(s, cid);
      ResumeEnters(s, cid, c, t);
      var r, frame := Resume(s, cid).state, ResumeFrame(s.checkPoint, s.require, s.regs, c, t);
      ResumeParts(s, r, frame, c, t, cid);
      EnterKeeps(s, r, frame, c, t);
    }
  }

  // ----- dispatch

  lemma DispatchFds(s: State, r: State, frame: Frame, c: nat, t: nat, fd: int)
    requires EnteredAs(s, r, frame, c, t) && s.place[t] == OnFd(fd, c) && r.table == Registry.Free(s.table, fd)
    requires FdsOwned(s) && fd in s.table.events
    requires forall u | u in s.place && s.place[u].OnFd? && s.place[u].fd == fd :: u == t
    ensures FdsOwned(r)
  {
  }

  lemma DispatchCids(s: State, r: State, frame: Frame, c: nat, t: nat)
    requires EnteredAs(s, r, frame, c, t) && !s.place[t].OnCid? && r.resumable == s.resumable
    requires CidsOwned(s, None)
    ensures CidsOwned(r, None)
  {
  }

  lemma OneWaiterPerEntry(s: State, fd: int, t: nat, u: nat)
    requires FdsOwned(s) && ContextsOwned(s, |s.frames|, None)
    requires t in s.place && u in s.place && s.place[t].OnFd? && s.place[u].OnFd?
    requires s.place[t].fd == fd && s.place[u].fd == fd
    ensures t == u
  {
  }

  lemma DispatchEnters(s: State, fd: int, c: nat, t: nat)
    requires IsFd(fd) && EntryOf(s.table, fd).context == Some(c) && Belongs(s, c, t)
    requires InCall(s.contexts[c].ex) && t in s.place && s.place[t] == OnFd(fd, c)
    ensures Dispatch(s, fd).Ok?
    ensures var r := Dispatch(s, fd).state;
      && EnteredAs(s, r, InvokeFrame(fd, AddressOf(s.table, fd), c, t), c, t)
      && r.checkPoint == s.checkPoint && r.jmp == s.jmp[s.checkPoint := |s.frames| + 1]
      && r.table == Registry.Free(s.table, fd) && r.resumable == s.resumable && r.next == s.next
  {
  }

  lemma DispatchParts(s: State, r: State, frame: Frame, c: nat, t: nat, fd: int)
    requires s.frames == [] && frame.InvokeFrame? && EnteredAs(s, r, frame, c, t)
    requires fd in s.table.events && s.place[t] == OnFd(fd, c)
    requires r.checkPoint == s.checkPoint && r.jmp == s.jmp[s.checkPoint := 1]
    requires r.table == Registry.Free(s.table, fd) && r.resumable == s.resumable && r.next == s.next
    requires Chain(s) && PointersBelow(s) && FdsOwned(s) && CidsOwned(s, None) && ContextsOwned(s, 0, None)
    requires Agrees(s.table) && EntriesAddressed(s) && frame.entry == AddressOf(s.table, fd)
    ensures Chain(r) && Saved(r) && FdsOwned(r) && CidsOwned(r, None) && Agrees(r.table) && EntriesAddressed(r)
    ensures forall b | b in r.jmp :: b < r.next
  {
    DispatchChain(s, r, frame);
    forall u | u in s.place && s.place[u].OnFd? && s.place[u].fd == fd ensures u == t {
      OneWaiterPerEntry(s, fd, t, u);
    }
    FreeAgrees(s.table, fd);
    FreeAddresses(s.table, fd);
    DispatchFds(s, r, frame, c, t, fd);
    DispatchCids(s, r, frame, c, t);
  }

  /** An idle entry resumes nobody, however often it is dispatched. */
  lemma IdleDispatch(s: State, fd: int)
    requires Agrees(s.table) && IsFd(fd) && EntryOf(s.table, fd).context.None?
    ensures Dispatch(s, fd) == Ok(s)
  {
    FreeAgrees(s.table, fd);
  }

  lemma DispatchWakes(s: State, r: State, fd: int, c: nat, t: nat)
    requires Inv(s) && s.frames == [] && fd in s.table.events && s.place.Keys == s.tasks.Keys
    requires EnteredAs(s, r, InvokeFrame(fd, AddressOf(s.table, fd), c, t), c, t) && s.place[t] == OnFd(fd, c)
    requires r.checkPoint == s.checkPoint && r.jmp == s.jmp[s.checkPoint := 1]
    requires r.table == Registry.Free(s.table, fd) && r.resumable == s.resumable && r.next == s.next
    ensures Inv(r)
  {
    var frame := InvokeFrame(fd, AddressOf(s.table, fd), c, t);
    DispatchParts(s, r, frame, c, t, fd);
    EnterKeeps(s, r, frame, c, t);
  }

  lemma DispatchKeeps(s: State, fd: int)
    requires Inv(s) && Disciplined(s, DoDispatch(fd))
    ensures Dispatch(s, fd).Ok? && Inv(Dispatch(s, fd).state)
  {
    if EntryOf(s.table, fd).context.Some? {
      var c := s.table.events[fd].context.value;
      assert WaiterHolds(s, fd, c);
      var t := s.contexts[c].task.value;
      assert ContextHeld(s, 0, c);
      DispatchEnters(s, fd, c, t);
      DispatchWakes(s, Dispatch(s, fd).state, fd, c, t);
    } else {
      IdleDispatch(s, fd);
    }
  }

  lemma DispatchChain(s: State, r: State, frame: Frame)
    requires s.frames == [] && Chain(s) && frame.InvokeFrame?
    requires r.frames == [frame] && r.checkPoint == s.checkPoint && r.jmp == s.jmp[s.checkPoint := 1]
    ensures Chain(r) && Saved(r)
  {
  }
}
