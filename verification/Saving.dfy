/** From a running coroutine to one on its way out: yield, wait and the end of its code. */
module SavingSteps {
  import opened Options
  import opened Registry
  import opened Machine
  import opened Invariants
  import opened LeavingSteps

  /** A running coroutine. */
  ghost predicate InCoroutine(s: State, t: nat) {
    s.frames != [] && Top(s).task == t && s.regs.task == Some(t)
  }

  // ----- saving the running coroutine in a fresh context

  ghost predicate SavedAs(s: State, r: State, t: nat, p: Place) {
    && !p.Active? && p.context == s.next
    && r.contexts == s.contexts[s.next := s.regs]
    && r.place == s.place[t := p]
    && r.next == s.next + 1
    && r.frames == s.frames && r.jmp == s.jmp && r.checkPoint == s.checkPoint
    && r.tasks == s.tasks && r.cids == s.cids && r.coroNum == s.coroNum && r.maxCoroNum == s.maxCoroNum
    && r.origin == s.origin && r.refused == s.refused && r.resumed == s.resumed && r.released == s.released
    && r.callbacks == s.callbacks && r.freed == s.freed && r.regs.task == s.regs.task
    && (forall cid | cid in r.cidMap :: r.cidMap[cid] == s.next || (cid in s.cidMap && r.cidMap[cid] == s.cidMap[cid]))
  }

  lemma SaveFrames(s: State, r: State, t: nat, p: Place)
    requires SavedAs(s, r, t, p) && InCoroutine(s, t) && FramesOwned(s, |s.frames|)
    ensures FramesOwned(r, |r.frames| - 1)
  {
  }

  lemma SaveOwns(s: State, r: State, t: nat, p: Place, u: nat)
    requires SavedAs(s, r, t, p) && InCoroutine(s, t) && u in s.place && u != t
    requires FramesOwned(s, |s.frames|) && s.next !in s.contexts
    requires OwnsContext(s, |s.frames|, None, u)
    requires OwnsContext(s, |s.frames|, None, t)
    ensures u in r.place && OwnsContext(r, |r.frames| - 1, ContextOf(Top(r)), u)
  {
  }

  lemma SaveHeld(s: State, r: State, t: nat, p: Place, c: nat)
    requires SavedAs(s, r, t, p) && InCoroutine(s, t) && c in s.contexts && Some(c) != ContextOf(Top(s))
    requires FramesOwned(s, |s.frames|) && s.next !in s.contexts
    requires ContextHeld(s, |s.frames|, c)
    ensures c in r.contexts && ContextHeld(r, |r.frames| - 1, c)
  {
  }

  /** The saved coroutine owns its fresh context. */
  lemma SavedOwns(s: State, r: State, t: nat, p: Place)
    requires SavedAs(s, r, t, p) && InCoroutine(s, t) && InCall(s.regs.ex) && t in s.place
    requires FramesOwned(s, |s.frames|) && OwnsContext(s, |s.frames|, None, t) && s.next !in s.contexts
    ensures OwnsContext(r, |r.frames| - 1, ContextOf(Top(r)), t) && ContextHeld(r, |r.frames| - 1, s.next)
    ensures ContextOf(Top(r)).Some? ==> ContextOf(Top(r)).value in s.contexts
  {
  }

  lemma SaveContexts(s: State, r: State, t: nat, p: Place)
    requires SavedAs(s, r, t, p) && InCoroutine(s, t) && InCall(s.regs.ex)
    requires FramesOwned(s, |s.frames|) && ContextsOwned(s, |s.frames|, None) && s.next !in s.contexts
    ensures ContextsOwned(r, |r.frames| - 1, ContextOf(Top(r)))
    ensures ContextOf(Top(r)).Some? ==> ContextOf(Top(r)).value in r.contexts
  {
    var n, extra := |s.frames|, ContextOf(Top(s));
    assert OwnsContext(s, n, None, t);
    SavedOwns(s, r, t, p);
    forall u | u in r.place ensures OwnsContext(r, n - 1, extra, u) {
      if u != t {
        SaveOwns(s, r, t, p, u);
      }
    }
    forall c | c in r.contexts && Some(c) != extra ensures ContextHeld(r, n - 1, c) {
      if c != s.next {
        SaveHeld(s, r, t, p, c);
      }
    }
  }

  lemma SavePointers(s: State, r: State, t: nat, p: Place)
    requires SavedAs(s, r, t, p) && PointersBelow(s)
    ensures PointersBelow(r)
  {
  }

  lemma SaveWoken(s: State, r: State, t: nat, p: Place)
    requires SavedAs(s, r, t, p) && PointersBelow(s) && WokenOnce(s)
    ensures WokenOnce(r)
  {
  }

  lemma SaveChain(s: State, r: State, t: nat, p: Place)
    requires SavedAs(s, r, t, p) && Chain(s) && Saved(s)
    ensures Chain(r) && Saved(r)
  {
    assert forall d | 0 <= d <= |s.frames| :: BufferAt(r, d) == BufferAt(s, d);
  }

  lemma SaveCallbacks(s: State, r: State, t: nat, p: Place)
    requires SavedAs(s, r, t, p) && CallbacksHeld(s)
    ensures CallbacksHeld(r)
  {
  }

  lemma SaveKeeps(s: State, r: State, t: nat, p: Place)
    requires Inv(s) && InCoroutine(s, t) && InCall(s.regs.ex) && SavedAs(s, r, t, p)
    requires Agrees(r.table) && EntriesAddressed(r) && FdsOwned(r) && CidsOwned(r, ContextOf(Top(r)))
    ensures Leaving(r)
  {
    SaveFrames(s, r, t, p);
    SaveContexts(s, r, t, p);
    SavePointers(s, r, t, p);
    SaveWoken(s, r, t, p);
    SaveChain(s, r, t, p);
    SaveCallbacks(s, r, t, p);
  }

  /** The jump of a coroutine on its way out lands in its own C frame. */
  lemma JumpIsReturn(s: State)
    requires Chain(s) && s.frames != []
    ensures Jump(s) == Return(s.(regs := s.regs.(vm := s.origin)))
  {
    assert BufferAt(s, |s.frames|) == s.checkPoint;
    assert s.frames[..|s.frames|] == s.frames;
  }

  // ----- yield

  ghost predicate YieldedAs(s: State, r: State, t: nat, cid: int) {
    && SavedAs(s, r, t, OnCid(s.next)) && InCoroutine(s, t)
    && t in s.tasks && s.tasks[t].cid == cid && t in s.place && s.place[t].Active?
    && r.cidMap == s.cidMap[cid := s.next] && r.resumable == s.resumable + {cid}
    && s.next !in s.contexts
  }

  lemma YieldKeepsYielded(s: State, r: State, t: nat, cid: int, c: int)
    requires YieldedAs(s, r, t, cid) && c != cid && YieldedHolds(s, c)
    ensures YieldedHolds(r, c)
  {
  }

  lemma YieldKeepsOnCid(s: State, r: State, t: nat, cid: int, u: nat)
    requires YieldedAs(s, r, t, cid) && u in s.place && u != t && s.place[u].OnCid?
    requires OnCidHolds(s, u, s.place[u].context) && s.tasks[u].cid != cid
    ensures OnCidHolds(r, u, r.place[u].context)
  {
  }

  lemma YieldCids(s: State, r: State, t: nat, cid: int)
    requires YieldedAs(s, r, t, cid) && CidsOwned(s, None)
    requires FramesOwned(s, |s.frames|) && ContextsOwned(s, |s.frames|, None)
    requires forall c | c in s.cidMap :: s.cidMap[c] < s.next
    requires forall u | u in s.tasks && u != t :: s.tasks[u].cid != cid
    ensures CidsOwned(r, ContextOf(Top(r)))
  {
    forall u | u in r.place && r.place[u].OnCid? ensures OnCidHolds(r, u, r.place[u].context) {
      if u != t {
        YieldKeepsOnCid(s, r, t, cid, u);
      }
    }
    forall c | c in r.resumable ensures YieldedHolds(r, c) {
      if c != cid {
        YieldKeepsYielded(s, r, t, cid, c);
      }
    }
    forall c | c in r.cidMap && c !in r.resumable ensures StaleHolds(r, r.cidMap[c], ContextOf(Top(r))) {
      StaleStays(s, r, t, OnCid(s.next), s.cidMap[c]);
    }
  }

  lemma StaleStays(s: State, r: State, t: nat, p: Place, c: nat)
    requires SavedAs(s, r, t, p) && InCoroutine(s, t) && c < s.next
    requires t in s.place && s.place[t] == Active(|s.frames| - 1)
    requires c in s.contexts ==> ContextHeld(s, |s.frames|, c)
    requires StaleHolds(s, c, None)
    ensures StaleHolds(r, c, ContextOf(Top(r)))
  {
  }

  lemma YieldFds(s: State, r: State, t: nat)
    requires SavedAs(s, r, t, OnCid(s.next)) && InCoroutine(s, t) && r.table == s.table
    requires FramesOwned(s, |s.frames|) && FdsOwned(s) && PointersBelow(s)
    ensures FdsOwned(r)
  {
  }

  lemma YieldSources(s: State, r: State, t: nat, cid: int)
    requires YieldedAs(s, r, t, cid) && r.table == s.table && PointersBelow(s) && CidsIssued(s)
    requires Owned(s, |s.frames|, None)
    ensures FdsOwned(r) && CidsOwned(r, ContextOf(Top(r)))
  {
    YieldCids(s, r, t, cid);
    YieldFds(s, r, t);
  }

  lemma Yielded(s: State, t: nat, r: State)
    requires InCoroutine(s, t) && t in s.tasks && FramesOwned(s, |s.frames|) && PointersBelow(s)
    requires r == SaveByCid(s, t, s.tasks[t].cid).(regs := s.regs.(vm := s.origin))
    ensures YieldedAs(s, r, t, s.tasks[t].cid)
  {
  }

  lemma YieldLeaves(s: State, t: nat, r: State)
    requires Inv(s) && InCoroutine(s, t) && InCall(s.regs.ex) && t in s.tasks
    requires r == SaveByCid(s, t, s.tasks[t].cid).(regs := s.regs.(vm := s.origin))
    ensures Leaving(r)
  {
    Yielded(s, t, r);
    YieldSources(s, r, t, s.tasks[t].cid);
    SaveKeeps(s, r, t, OnCid(s.next));
  }

  // ----- wait

  lemma WaitCids(s: State, r: State, t: nat, p: Place)
    requires SavedAs(s, r, t, p) && InCoroutine(s, t) && !p.OnCid?
    requires r.cidMap == s.cidMap && r.resumable == s.resumable && s.next !in s.contexts
    requires CidsOwned(s, None) && FramesOwned(s, |s.frames|) && ContextsOwned(s, |s.frames|, None)
    requires forall c | c in s.cidMap :: s.cidMap[c] < s.next
    ensures CidsOwned(r, ContextOf(Top(r)))
  {
    forall c | c in r.resumable ensures YieldedHolds(r, c) {
      assert YieldedHolds(s, c);
    }
    forall c | c in r.cidMap && c !in r.resumable ensures StaleHolds(r, r.cidMap[c], ContextOf(Top(r))) {
      StaleStays(s, r, t, p, s.cidMap[c]);
    }
  }

  /** What a store that reports success does to the entries. */
  ghost predicate StoredAs(s: State, r: State, fd: int, p: Place) {
    if EntryOf(s.table, fd).context.Some? then
      r.table == s.table && p == Lost(s.next)
    else
      && p == OnFd(fd, s.next) && EntryOf(r.table, fd).context == Some(s.next)
      && forall x | x != fd :: EntryOf(r.table, x) == EntryOf(s.table, x)
  }

  lemma WaitFds(s: State, r: State, t: nat, fd: int, p: Place)
    requires SavedAs(s, r, t, p) && InCoroutine(s, t) && StoredAs(s, r, fd, p) && s.next !in s.contexts
    requires FramesOwned(s, |s.frames|) && FdsOwned(s)
    ensures FdsOwned(r)
  {
    forall x | x in r.table.events && r.table.events[x].context.Some?
      ensures WaiterHolds(r, x, r.table.events[x].context.value)
    {
      assert EntryOf(r.table, x) == r.table.events[x];
      if EntryOf(r.table, x) == EntryOf(s.table, x) {
        assert x in s.table.events;
        assert WaiterHolds(s, x, s.table.events[x].context.value);
      }
    }
  }

  lemma StoreEntries(s: State, r: State, fd: int, req: Request, added: bool)
    requires EntriesAddressed(s) && r.frames == s.frames && r.table == Store(s.table, fd, s.next, req, added).table
    ensures EntriesAddressed(r)
  {
    StoreAddressed(s.table, fd, s.next, req, added);
  }

  lemma WaitLeaves(s: State, t: nat, fd: int, req: Request, added: bool, r: State)
    requires Inv(s) && InCoroutine(s, t) && InCall(s.regs.ex)
    requires ValidRequest(req) && KernelAdd(s.table, fd, added)
    requires Store(s.table, fd, s.next, req, added).ok
    requires r == SaveByFd(s, Store(s.table, fd, s.next, req, added).table, fd).(regs := s.regs.(vm := s.origin))
    ensures Leaving(r)
  {
    var p := PlaceAfterWait(r.table, fd, s.next);
    assert SavedAs(s, r, t, p);
    StoreHarmsNoWaiter(s.table, fd, s.next, req, added);
    StoreAgrees(s.table, fd, s.next, req, added);
    if EntryOf(s.table, fd).context.Some? {
      assert WaiterHolds(s, fd, s.table.events[fd].context.value);
    }
    assert StoredAs(s, r, fd, p);
    StoreEntries(s, r, fd, req, added);
    WaitCids(s, r, t, p);
    WaitFds(s, r, t, fd, p);
    SaveKeeps(s, r, t, p);
  }

  // ----- the end of a coroutine

  ghost predicate ClosedAs(s: State, r: State, t: nat) {
    && t in s.tasks && r == CloseTask(s, t)
  }

  lemma CloseFrames(s: State, r: State, t: nat)
    requires ClosedAs(s, r, t) && InCoroutine(s, t) && FramesOwned(s, |s.frames|)
    ensures FramesOwned(r, |r.frames| - 1)
  {
  }

  /** The part of a close that ownership sees. */
  ghost predicate Dropped(s: State, r: State, t: nat) {
    r.contexts == s.contexts && r.place == s.place - {t} && r.frames == s.frames
  }

  lemma CloseOwns(s: State, r: State, t: nat, u: nat)
    requires Dropped(s, r, t) && InCoroutine(s, t) && u in s.place && u != t && t in s.place
    requires FramesOwned(s, |s.frames|)
    requires OwnsContext(s, |s.frames|, None, u) && OwnsContext(s, |s.frames|, None, t)
    ensures u in r.place && OwnsContext(r, |r.frames| - 1, ContextOf(Top(r)), u)
  {
  }

  lemma CloseHeld(s: State, r: State, t: nat, c: nat)
    requires Dropped(s, r, t) && InCoroutine(s, t) && c in s.contexts && Some(c) != ContextOf(Top(s))
    requires FramesOwned(s, |s.frames|) && ContextHeld(s, |s.frames|, c)
    ensures ContextHeld(r, |r.frames| - 1, c)
  {
  }

  lemma CloseContexts(s: State, r: State, t: nat)
    requires Dropped(s, r, t) && InCoroutine(s, t) && t in s.place
    requires FramesOwned(s, |s.frames|) && ContextsOwned(s, |s.frames|, None)
    ensures ContextsOwned(r, |r.frames| - 1, ContextOf(Top(r)))
    ensures ContextOf(Top(r)).Some? ==> ContextOf(Top(r)).value in r.contexts
  {
    var n, extra := |s.frames|, ContextOf(Top(s));
    assert OwnsContext(s, n, None, t);
    forall u | u in r.place ensures OwnsContext(r, n - 1, extra, u) {
      CloseOwns(s, r, t, u);
    }
    forall c | c in r.contexts && Some(c) != extra ensures ContextHeld(r, n - 1, c) {
      CloseHeld(s, r, t, c);
    }
  }

  lemma CloseFds(s: State, r: State, t: nat)
    requires ClosedAs(s, r, t) && InCoroutine(s, t) && FramesOwned(s, |s.frames|) && FdsOwned(s)
    ensures FdsOwned(r)
  {
  }

  lemma CloseCids(s: State, r: State, t: nat)
    requires ClosedAs(s, r, t) && InCoroutine(s, t)
    requires FramesOwned(s, |s.frames|) && ContextsOwned(s, |s.frames|, None) && CidsOwned(s, None)
    ensures CidsOwned(r, ContextOf(Top(r)))
  {
    forall u | u in r.place && r.place[u].OnCid? ensures OnCidHolds(r, u, r.place[u].context) {
      assert OnCidHolds(s, u, s.place[u].context);
    }
    forall c | c in r.resumable ensures YieldedHolds(r, c) {
      assert YieldedHolds(s, c);
    }
    forall c | c in r.cidMap && c !in r.resumable ensures StaleHolds(r, r.cidMap[c], ContextOf(Top(r))) {
      assert StaleHolds(s, s.cidMap[c], None);
      if s.cidMap[c] in s.contexts {
        assert ContextHeld(s, |s.frames|, s.cidMap[c]);
      }
    }
  }

  lemma CloseCounted(s: State, r: State, t: nat)
    requires ClosedAs(s, r, t) && Counted(s) && CidsIssued(s)
    ensures Counted(r)
  {
    assert r.tasks.Keys == s.tasks.Keys - {t};
  }

  lemma CloseIssued(s: State, r: State, t: nat)
    requires ClosedAs(s, r, t) && CidsIssued(s)
    ensures CidsIssued(r)
  {
  }

  lemma CloseFrameCallbacks(s: State, r: State, t: nat)
    requires ClosedAs(s, r, t) && FrameCallbacks(s) && Unsettled(s)
    ensures FrameCallbacks(r) && Unsettled(r)
  {
  }

  lemma CloseTaskCallbacks(s: State, r: State, t: nat)
    requires ClosedAs(s, r, t) && TaskCallbacks(s)
    ensures TaskCallbacks(r)
  {
  }

  lemma CloseRest(s: State, r: State, t: nat)
    requires ClosedAs(s, r, t) && PointersBelow(s) && WokenOnce(s) && Chain(s) && Saved(s)
    ensures PointersBelow(r) && WokenOnce(r) && Chain(r) && Saved(r)
  {
    assert forall d | 0 <= d <= |s.frames| :: BufferAt(r, d) == BufferAt(s, d);
  }

  lemma EndLeaves(s: State, t: nat, r: State)
    requires Inv(s) && InCoroutine(s, t) && ClosedAs(s, r, t)
    ensures Leaving(r)
  {
    CloseFrames(s, r, t);
    CloseContexts(s, r, t);
    CloseFds(s, r, t);
    CloseCids(s, r, t);
    CloseCounted(s, r, t);
    CloseIssued(s, r, t);
    CloseRest(s, r, t);
    CloseFrameCallbacks(s, r, t);
    CloseTaskCallbacks(s, r, t);
  }
}
