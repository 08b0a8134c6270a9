/** Every live coroutine has one wake source, unless the program threw it away. */
module Ownership {
  import opened Options
  import opened Registry
  import opened Machine
  import opened Invariants
  import opened Runs
  import opened Effects

  /** Where control over a coroutine can come from: an activation of it, the entry of a
      descriptor, or the cid map entry of a coroutine that yielded and was not resumed. */
  datatype Source = OnStack(depth: nat) | FdEntry(fd: int) | CidEntry(cid: int)

  ghost predicate Wakes(s: State, src: Source, t: nat) {
    match src
    case OnStack(i) => i < |s.frames| && s.frames[i].task == t
    case FdEntry(fd) =>
      EntryOf(s.table, fd).context.Some? && Belongs(s, EntryOf(s.table, fd).context.value, t)
    case CidEntry(cid) => cid in s.resumable && cid in s.cidMap && Belongs(s, s.cidMap[cid], t)
  }

  ghost predicate HoldsContext(s: State, src: Source, c: nat) {
    match src
    case OnStack(i) => i < |s.frames| && ContextOf(s.frames[i]) == Some(c)
    case FdEntry(fd) => EntryOf(s.table, fd).context == Some(c)
    case CidEntry(cid) => cid in s.resumable && cid in s.cidMap && s.cidMap[cid] == c
  }

  ghost predicate IsLost(s: State, t: nat) {
    t in s.place && s.place[t].Lost?
  }

  /** The source of a coroutine is the one its place names. */
  lemma SourceIsPlace(s: State, src: Source, t: nat)
    requires FramesOwned(s, |s.frames|) && FdsOwned(s) && CidsOwned(s, None) && Wakes(s, src, t)
    ensures t in s.place && match src
            case OnStack(i) => s.place[t] == Active(i)
            case FdEntry(fd) => s.place[t].OnFd? && s.place[t].fd == fd
            case CidEntry(cid) => s.place[t].OnCid? && t in s.tasks && s.tasks[t].cid == cid
  {
  }

  lemma PlaceIsSource(s: State, t: nat) returns (src: Source)
    requires FramesOwned(s, |s.frames|) && ContextsOwned(s, |s.frames|, None) && FdsOwned(s) && CidsOwned(s, None)
    requires t in s.place && !s.place[t].Lost?
    ensures Wakes(s, src, t)
  {
    assert OwnsContext(s, |s.frames|, None, t);
    match s.place[t]
    case Active(i) => src := OnStack(i);
    case OnFd(fd, _) => src := FdEntry(fd);
    case OnCid(c) =>
      assert OnCidHolds(s, t, c);
      src := CidEntry(s.tasks[t].cid);
  }

  /** A live coroutine has exactly one wake source, or none if it is lost. */
  lemma SingleOwner(s: State, t: nat)
    requires Owned(s, |s.frames|, None) && t in s.tasks
    ensures (exists src :: Wakes(s, src, t)) <==> !IsLost(s, t)
    ensures forall a, b | Wakes(s, a, t) && Wakes(s, b, t) :: a == b
  {
    forall a, b | Wakes(s, a, t) && Wakes(s, b, t) ensures a == b {
      SourceIsPlace(s, a, t);
      SourceIsPlace(s, b, t);
    }
    forall a | Wakes(s, a, t) ensures !IsLost(s, t) {
      SourceIsPlace(s, a, t);
    }
    if !IsLost(s, t) {
      var src := PlaceIsSource(s, t);
    }
  }

  /** No context has two owners, and an owned context is allocated. */
  lemma SingleHolder(s: State, a: Source, b: Source, c: nat)
    requires Owned(s, |s.frames|, None) && HoldsContext(s, a, c) && HoldsContext(s, b, c)
    ensures a == b && c in s.contexts
  {
  }

  // ----- who gets lost

  /** The program throws `t` away: it waits on a descriptor that already has a waiter, or
      the descriptor it waits on is closed. */
  ghost predicate LosingStep(s: State, a: Action, t: nat) {
    match a
    case DoWait(fd, _, _) => s.regs.task == Some(t) && EntryOf(s.table, fd).context.Some?
    case DoSocketClose(fd) =>
      EntryOf(s.table, fd).context.Some? && Belongs(s, EntryOf(s.table, fd).context.value, t)
    case _ => false
  }

  ghost predicate LostMoves(s: State, a: Action, r: State) {
    forall t :: IsLost(r, t) <==> IsLost(s, t) || LosingStep(s, a, t)
  }

  lemma WaitLoses(s: State, fd: int, req: Request, added: bool, r: State)
    requires WaitEffect(s, fd, Store(s.table, fd, s.next, req, added), r) && ValidRequest(req)
    requires s.frames != [] && Running(s) && FramesOwned(s, |s.frames|) && FdsOwned(s) && PointersBelow(s)
    requires Agrees(s.table)
    ensures LostMoves(s, DoWait(fd, req, added), r)
  {
    StoreHarmsNoWaiter(s.table, fd, s.next, req, added);
    if EntryOf(s.table, fd).context.Some? {
      assert WaiterHolds(s, fd, EntryOf(s.table, fd).context.value);
    }
  }

  lemma EnterLoses(s: State, a: Action, r: State)
    requires Effect(s, a, r) && FramesOwned(s, |s.frames|) && PointersBelow(s)
    requires a.DoCreate? || a.DoResume? || a.DoDispatch?
    ensures LostMoves(s, a, r)
  {
  }

  lemma StepLoses(s: State, a: Action, r: State)
    requires Effect(s, a, r) && Disciplined(s, a)
    requires Running(s) && FramesOwned(s, |s.frames|) && FdsOwned(s) && PointersBelow(s) && Agrees(s.table)
    ensures LostMoves(s, a, r)
  {
    if a.DoCreate? || a.DoResume? || a.DoDispatch? {
      EnterLoses(s, a, r);
    } else if a.DoWait? {
      WaitLoses(s, a.fd, a.req, a.added, r);
    }
  }

  lemma RunLoses(ss: seq<State>, acts: seq<Action>, i: nat)
    requires Run(ss, acts) && i < |acts| && IdsLeft(ss, acts, i + 1)
    ensures LostMoves(ss[i], acts[i], ss[i + 1])
  {
    RunStep(ss, acts, i);
    StepEffect(ss[i], acts[i], ss[i + 1]);
    StepLoses(ss[i], acts[i], ss[i + 1]);
  }

  ghost predicate EverLost(ss: seq<State>, acts: seq<Action>, n: nat, t: nat)
    requires n <= |acts| && n <= |ss|
  {
    exists j :: 0 <= j < n && LosingStep(ss[j], acts[j], t)
  }

  lemma {:induction false} LostIffThrownAway(ss: seq<State>, acts: seq<Action>, n: nat, t: nat)
    requires |ss| == |acts| + 1 && n < |ss| && !IsLost(ss[0], t)
    requires forall i | 0 <= i < n :: LostMoves(ss[i], acts[i], ss[i + 1])
    ensures IsLost(ss[n], t) <==> EverLost(ss, acts, n, t)
  {
    if n > 0 {
      LostIffThrownAway(ss, acts, n - 1, t);
      assert LostMoves(ss[n - 1], acts[n - 1], ss[n - 1 + 1]);
      if EverLost(ss, acts, n - 1, t) {
        var j :| 0 <= j < n - 1 && LosingStep(ss[j], acts[j], t);
        assert 0 <= j < n && LosingStep(ss[j], acts[j], t);
      }
    }
  }

  lemma StartsUnlost(s: State, t: nat)
    requires Starts(s)
    ensures !IsLost(s, t)
  {
  }

  /** Single ownership over whole runs: a live coroutine has exactly one wake source if it
      never waited on a busy descriptor and no descriptor was closed under it, and none at
      all otherwise. */
  lemma OneOwnerUnlessThrownAway(ss: seq<State>, acts: seq<Action>, n: nat, t: nat)
    requires Run(ss, acts) && IdsLeft(ss, acts, n) && t in ss[n].tasks
    ensures (exists src :: Wakes(ss[n], src, t)) <==> !EverLost(ss, acts, n, t)
    ensures forall a, b | Wakes(ss[n], a, t) && Wakes(ss[n], b, t) :: a == b
  {
    forall i | 0 <= i < n ensures LostMoves(ss[i], acts[i], ss[i + 1]) {
      RunLoses(ss, acts, i);
    }
    StartsUnlost(ss[0], t);
    LostIffThrownAway(ss, acts, n, t);
    RunOwned(ss, acts, n, t);
  }

  lemma RunOwned(ss: seq<State>, acts: seq<Action>, n: nat, t: nat)
    requires Run(ss, acts) && IdsLeft(ss, acts, n) && t in ss[n].tasks
    ensures (exists src :: Wakes(ss[n], src, t)) <==> !IsLost(ss[n], t)
    ensures forall a, b | Wakes(ss[n], a, t) && Wakes(ss[n], b, t) :: a == b
  {
    RunCapped(ss, acts, n);
    SingleOwner(ss[n], t);
  }
}
