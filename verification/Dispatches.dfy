/** The entry a dispatch is for, from its start to its end. */
module Dispatches {
  import opened Registry
  import opened Machine
  import opened Invariants
  import opened Runs
  import opened Nesting
  import opened Effects

  /** A wait on `fd` that the kernel refuses: the entry of `fd` is freed. */
  predicate FreesEntry(s: State, a: Action, fd: int) {
    a.DoWait? && a.fd == fd && Discards(s.table, fd, a.added)
  }

  lemma StepEntry(s: State, a: Action, r: State, fd: int, entry: nat)
    requires Effect(s, a, r) && Addressed(s.table) && entry < s.table.nextAddress
    ensures IsEntry(r.table, fd, entry) <==> IsEntry(s.table, fd, entry) && !FreesEntry(s, a, fd)
    ensures entry < r.table.nextAddress
  {
    match a
    case DoDispatch(x) => FreeAddresses(s.table, x);
    case DoSocketClose(x) => FreeAddresses(s.table, x);
    case DoWait(x, req, added) =>
      StoreAddressed(s.table, x, s.next, req, added);
      StoreAddresses(s.table, x, s.next, req, added, fd, entry);
    case _ =>
  }

  lemma RunEntry(ss: seq<State>, acts: seq<Action>, i: nat, fd: int, entry: nat)
    requires Run(ss, acts) && i < |acts| && IdsLeft(ss, acts, i + 1) && entry < ss[i].table.nextAddress
    ensures IsEntry(ss[i + 1].table, fd, entry) <==> IsEntry(ss[i].table, fd, entry) && !FreesEntry(ss[i], acts[i], fd)
    ensures entry < ss[i + 1].table.nextAddress
  {
    RunEffect(ss, acts, i);
    RunCapped(ss, acts, i);
    StepEntry(ss[i], acts[i], ss[i + 1], fd, entry);
  }

  /** An entry stays where it is until the kernel refuses a wait on its descriptor. */
  lemma {:induction false} EntryStaysIff(ss: seq<State>, acts: seq<Action>, k: nat, n: nat, fd: int, entry: nat)
    requires Run(ss, acts) && k <= n && IdsLeft(ss, acts, n) && IsEntry(ss[k].table, fd, entry)
    ensures entry < ss[n].table.nextAddress
    ensures IsEntry(ss[n].table, fd, entry) <==> !(exists j :: k <= j < n && FreesEntry(ss[j], acts[j], fd))
    decreases n
  {
    if n == k {
      RunCapped(ss, acts, k);
    } else {
      EntryStaysIff(ss, acts, k, n - 1, fd, entry);
      RunEntry(ss, acts, n - 1, fd, entry);
    }
  }

  // ----- the dispatch in progress

  predicate InDispatch(s: State) {
    s.frames != [] && s.frames[0].InvokeFrame?
  }

  lemma CreateOpens(s: State, a: Action, r: State)
    requires Inv(s) && a.DoCreate? && IdLeft(s, a) && Step(s, a) == Ok(r) && s.frames == []
    ensures !InDispatch(r)
  {
    CreateCalls(s, a, r);
  }

  lemma ResumeOpens(s: State, cid: int, r: State)
    requires Inv(s) && Disciplined(s, DoResume(cid)) && Step(s, DoResume(cid)) == Ok(r) && s.frames == []
    ensures !InDispatch(r)
  {
    ResumeCalls(s, cid, r);
  }

  lemma DispatchOpens(s: State, fd: int, r: State)
    requires Step(s, DoDispatch(fd)) == Ok(r) && s.frames == [] && InDispatch(r)
    ensures r.frames[0].fd == fd && DispatchOf(r.frames[0], s.table, fd)
  {
    DispatchCalls(s, fd, r);
  }

  lemma OpensDispatch(s: State, a: Action, r: State)
    requires Inv(s) && Disciplined(s, a) && IdLeft(s, a) && Step(s, a) == Ok(r)
    requires s.frames == [] && InDispatch(r)
    ensures a == DoDispatch(r.frames[0].fd) && DispatchOf(r.frames[0], s.table, r.frames[0].fd)
  {
    if a.DoDispatch? {
      DispatchOpens(s, a.fd, r);
    } else if a.DoCreate? {
      CreateOpens(s, a, r);
    } else if a.DoResume? {
      ResumeOpens(s, a.cid, r);
    }
  }

  /** The dispatch in progress at step `n` was made at step `k`, from main. */
  ghost predicate StartedAt(ss: seq<State>, acts: seq<Action>, k: nat, n: nat, fd: int)
    requires n <= |acts| < |ss|
  {
    k < n && acts[k] == DoDispatch(fd) && forall i | k < i <= n :: ss[i].frames != []
  }

  lemma RunOpensDispatch(ss: seq<State>, acts: seq<Action>, k: nat)
    requires Run(ss, acts) && k < |acts| && IdsLeft(ss, acts, k + 1) && ss[k].frames == [] && InDispatch(ss[k + 1])
    ensures acts[k] == DoDispatch(ss[k + 1].frames[0].fd)
    ensures IsEntry(ss[k].table, ss[k + 1].frames[0].fd, ss[k + 1].frames[0].entry)
  {
    RunStep(ss, acts, k);
    OpensDispatch(ss[k], acts[k], ss[k + 1]);
  }

  lemma {:induction false} DispatchStart(ss: seq<State>, acts: seq<Action>, n: nat) returns (k: nat)
    requires Run(ss, acts) && IdsLeft(ss, acts, n) && InDispatch(ss[n])
    ensures StartedAt(ss, acts, k, n, ss[n].frames[0].fd) && ss[k].frames == []
    ensures IsEntry(ss[k].table, ss[n].frames[0].fd, ss[n].frames[0].entry)
  {
    if ss[n - 1].frames == [] {
      k := n - 1;
      RunOpensDispatch(ss, acts, k);
    } else {
      RunStackMoves(ss, acts, n - 1);
      BottomStays(ss[n - 1], ss[n]);
      k := DispatchStart(ss, acts, n - 1);
    }
  }

  lemma OneStart(ss: seq<State>, acts: seq<Action>, k: nat, l: nat, n: nat, fd: int)
    requires Run(ss, acts) && n <= |acts| && StartedAt(ss, acts, k, n, fd) && StartedAt(ss, acts, l, n, fd)
    ensures k == l
  {
    assert StepAt(k) && StepAt(l);
  }

  /** Since the dispatch in progress of `fd` was made, the kernel refused a wait on `fd`. */
  ghost predicate RefusedSince(ss: seq<State>, acts: seq<Action>, n: nat, fd: int)
    requires n <= |acts| < |ss|
  {
    exists k: nat, j: nat :: StartedAt(ss, acts, k, n, fd) && k < j < n && FreesEntry(ss[j], acts[j], fd)
  }

  /** The entry that `aio_invoke` reads again after its waiter has run has been freed if and
      only if the kernel refused a wait on the same descriptor since the dispatch was made,
      at whatever depth; an entry that was added again does not count. */
  lemma EntryFreedIff(ss: seq<State>, acts: seq<Action>, n: nat)
    requires Run(ss, acts) && IdsLeft(ss, acts, n) && InDispatch(ss[n])
    ensures !IsEntry(ss[n].table, ss[n].frames[0].fd, ss[n].frames[0].entry)
            <==> RefusedSince(ss, acts, n, ss[n].frames[0].fd)
  {
    var fd, entry := ss[n].frames[0].fd, ss[n].frames[0].entry;
    var k := DispatchStart(ss, acts, n);
    EntryStaysIff(ss, acts, k, n, fd, entry);
    if RefusedSince(ss, acts, n, fd) {
      var l: nat, j: nat :| StartedAt(ss, acts, l, n, fd) && l < j < n && FreesEntry(ss[j], acts[j], fd);
      OneStart(ss, acts, k, l, n, fd);
    }
    if !IsEntry(ss[n].table, fd, entry) {
      var j :| k <= j < n && FreesEntry(ss[j], acts[j], fd);
      assert k < j;
    }
  }

  /** The step ends a dispatch during which the kernel refused a wait on its descriptor. */
  ghost predicate EndsSpoiledDispatch(ss: seq<State>, acts: seq<Action>, n: nat, a: Action)
    requires n <= |acts| < |ss|
  {
    && Leaves(ss[n], a) && |ss[n].frames| == 1 && ss[n].frames[0].InvokeFrame?
    && RefusedSince(ss, acts, n, ss[n].frames[0].fd)
  }

  lemma ReadsFreed(s: State, a: Action)
    requires Chain(s)
    ensures ReadsFreedEntry(s, a) <==>
            && Leaves(s, a) && |s.frames| == 1 && s.frames[0].InvokeFrame?
            && !IsEntry(s.table, s.frames[0].fd, s.frames[0].entry)
  {
    if s.frames != [] {
      InvokeIsBottom(s);
    }
  }

  lemma ReadsFreedIff(ss: seq<State>, acts: seq<Action>, n: nat, a: Action)
    requires Run(ss, acts) && IdsLeft(ss, acts, n)
    ensures ReadsFreedEntry(ss[n], a) <==> EndsSpoiledDispatch(ss, acts, n, a)
  {
    RunCapped(ss, acts, n);
    ReadsFreed(ss[n], a);
    if InDispatch(ss[n]) {
      EntryFreedIff(ss, acts, n);
    }
  }
}
