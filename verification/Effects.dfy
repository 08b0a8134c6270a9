/** What each disciplined step does to the wake sources, read off one step at a time. */
module Effects {
  import opened Options
  import opened Registry
  import opened CidSpec
  import opened Machine
  import opened Invariants
  import opened LeavingSteps
  import opened EnteringSteps
  import opened CreatingSteps
  import opened Preservation
  import opened Runs

  /** The live coroutines and their ids are the same. */
  ghost predicate SameTasks(s: State, r: State) {
    r.tasks.Keys == s.tasks.Keys && forall t | t in s.tasks :: r.tasks[t].cid == s.tasks[t].cid
  }

  ghost predicate SameSources(s: State, r: State) {
    r.contexts == s.contexts && r.cidMap == s.cidMap && r.resumable == s.resumable && r.table == s.table
  }

  ghost predicate YieldEffect(s: State, r: State) {
    && s.frames != [] && Top(s).task in s.tasks && s.regs.task == Some(Top(s).task)
    && var t, cid := Top(s).task, s.tasks[Top(s).task].cid;
    && r.place == s.place[t := OnCid(s.next)]
    && r.contexts == Without(s.contexts[s.next := s.regs], ContextOf(Top(s)))
    && r.cidMap == s.cidMap[cid := s.next] && r.resumable == s.resumable + {cid}
    && r.table == s.table && SameTasks(s, r) && r.cids == s.cids
    && r.released == s.released + ReleasedBy(Top(s))
  }

  ghost predicate WaitEffect(s: State, fd: int, out: Stored, r: State) {
    if out.ok then
      && s.frames != [] && s.regs.task == Some(Top(s).task)
      && r.place == s.place[Top(s).task := PlaceAfterWait(out.table, fd, s.next)]
      && r.contexts == Without(s.contexts[s.next := s.regs], ContextOf(Top(s)))
      && r.cidMap == s.cidMap && r.resumable == s.resumable && r.table == out.table && SameTasks(s, r)
      && r.cids == s.cids
      && r.released == s.released + ReleasedBy(Top(s))
    else
      && s.next !in s.contexts && s.next !in s.released
      && r == s.(table := out.table, next := s.next + 1, released := s.released + multiset{s.next})
  }

  ghost predicate EndEffect(s: State, r: State) {
    && s.frames != [] && Top(s).task in s.tasks && s.regs.task == Some(Top(s).task)
    && var t := Top(s).task;
    && r.place == s.place - {t} && r.contexts == Without(s.contexts, ContextOf(Top(s)))
    && r.cidMap == s.cidMap && r.resumable == s.resumable && r.table == s.table
    && r.released == s.released + ReleasedBy(Top(s))
    && r.cids == CidState(s.cids.used - {s.tasks[t].cid - 1}, s.cids.last)
    && r.tasks.Keys == s.tasks.Keys - {t} && forall u | u in r.tasks :: r.tasks[u].cid == s.tasks[u].cid
  }

  /** A create below the cap starts the new coroutine on the stack, in the frame and with the
      return value it was given; one at the cap leaves the caller running as it was. */
  ghost predicate CreateEffect(s: State, vm: Vm, ex: Exec, retPtr: nat, r: State) {
    && SameSources(s, r)
    && r.cids == CidState(s.cids.used + {NextFree(s.cids)}, NextFree(s.cids))
    && if s.coroNum >= s.maxCoroNum then
         r.place == s.place && SameTasks(s, r) && r.frames == s.frames && r.regs == s.regs
       else && s.next + 2 !in s.tasks && r.place == s.place[s.next + 2 := Active(|s.frames|)]
            && r.tasks == s.tasks[s.next + 2 := Task(NextFree(s.cids) + 1, None)]
            && |r.frames| == |s.frames| + 1 && Top(r).task == s.next + 2
            && r.regs == Regs(vm, ex, Some(s.next + 2), retPtr)
  }

  /** The coroutine `t` continues from its context `c`, behind the call that suspended it. */
  ghost predicate Continues(s: State, r: State, c: nat, t: nat) {
    && Belongs(s, c, t) && InCall(s.contexts[c].ex)
    && r.regs == s.contexts[c].(ex := s.contexts[c].ex.prev)
    && r.place == s.place[t := Active(|s.frames|)]
    && |r.frames| == |s.frames| + 1 && Top(r).task == t && ContextOf(Top(r)) == Some(c)
    && r.contexts == s.contexts && r.cidMap == s.cidMap && r.tasks == s.tasks && r.cids == s.cids
    && r.resumed == s.resumed + multiset{c}
  }

  ghost predicate ResumeEffect(s: State, cid: int, r: State) {
    if cid !in s.cidMap then r == s
    else
      && YieldedHolds(s, cid)
      && Continues(s, r, s.cidMap[cid], s.contexts[s.cidMap[cid]].task.value)
      && r.resumable == s.resumable - {cid} && r.table == s.table
  }

  ghost predicate DispatchEffect(s: State, fd: int, r: State) {
    match EntryOf(s.table, fd).context
    case None => r == s
    case Some(c) =>
      && WaiterHolds(s, fd, c)
      && Continues(s, r, c, s.contexts[c].task.value)
      && r.resumable == s.resumable && r.table == Registry.Free(s.table, fd)
  }

  ghost predicate CloseEffect(s: State, fd: int, r: State) {
    match EntryOf(s.table, fd).context
    case None => r == s
    case Some(c) =>
      && WaiterHolds(s, fd, c)
      && r == s.(table := Registry.Free(s.table, fd), place := s.place[s.contexts[c].task.value := Lost(c)])
  }

  ghost predicate Effect(s: State, a: Action, r: State) {
    match a
    case DoCreate(vm, ex, retPtr) => CreateEffect(s, vm, ex, retPtr, r)
    case DoResume(cid) => ResumeEffect(s, cid, r)
    case DoDispatch(fd) => DispatchEffect(s, fd, r)
    case DoYield => YieldEffect(s, r)
    case DoWait(fd, req, added) => WaitEffect(s, fd, Store(s.table, fd, s.next, req, added), r)
    case DoEnd => EndEffect(s, r)
    case DoSocketClose(fd) => CloseEffect(s, fd, r)
    case DoForeignClose(fd) => r == s
    case DoRun(vm, ex) => r == s.(regs := s.regs.(vm := vm, ex := ex))
  }

  lemma YieldPops(s: State, m: State, r: State)
    requires YieldSaved(s, m) && Popped(m, r) && m.frames == s.frames
    ensures YieldEffect(s, r)
  {
  }

  lemma WaitPops(s: State, fd: int, out: Stored, m: State, r: State)
    requires out.ok && WaitSaved(s, fd, out.table, m) && Popped(m, r) && m.frames == s.frames
    ensures WaitEffect(s, fd, out, r)
  {
  }

  lemma EndPops(s: State, m: State, r: State)
    requires EndSaved(s, m) && Popped(m, r) && m.frames == s.frames
    ensures EndEffect(s, r)
  {
  }

  lemma YieldEffects(s: State, r: State)
    requires Inv(s) && Disciplined(s, DoYield) && Step(s, DoYield) == Ok(r)
    ensures YieldEffect(s, r)
  {
    var m := YieldStep(s);
    LeavingCanReturn(m);
    LeftEntryThere(s, DoYield, m);
    var r' := LeaveKeeps(s, DoYield, m);
    YieldPops(s, m, r);
  }

  lemma EndEffects(s: State, r: State)
    requires Inv(s) && Disciplined(s, DoEnd) && Step(s, DoEnd) == Ok(r)
    ensures EndEffect(s, r)
  {
    var m := EndStep(s);
    LeavingCanReturn(m);
    LeftEntryThere(s, DoEnd, m);
    var r' := LeaveKeeps(s, DoEnd, m);
    EndPops(s, m, r);
  }

  lemma WaitEffects(s: State, fd: int, req: Request, added: bool, r: State)
    requires Inv(s) && Disciplined(s, DoWait(fd, req, added)) && Step(s, DoWait(fd, req, added)) == Ok(r)
    ensures WaitEffect(s, fd, Store(s.table, fd, s.next, req, added), r)
  {
    if Store(s.table, fd, s.next, req, added).ok {
      var m := WaitStep(s, fd, req, added);
      LeavingCanReturn(m);
      LeftEntryThere(s, DoWait(fd, req, added), m);
      var r' := LeaveKeeps(s, DoWait(fd, req, added), m);
      WaitPops(s, fd, Store(s.table, fd, s.next, req, added), m, r);
    } else {
      NextUnused(s);
      RefusedWaitFrees(s, fd, req, added, r);
    }
  }

  /** A wait that the kernel refuses frees the context it had allocated, and lets the
      coroutine go on. */
  lemma RefusedWaitFrees(s: State, fd: int, req: Request, added: bool, r: State)
    requires !Store(s.table, fd, s.next, req, added).ok && Wait(s, fd, req, added) == Ok(r)
    ensures r.released == s.released + multiset{s.next} && r.contexts == s.contexts && r.next == s.next + 1
    ensures r == s.(table := Store(s.table, fd, s.next, req, added).table, next := r.next, released := r.released)
  {
  }

  lemma NextUnused(s: State)
    requires PointersBelow(s)
    ensures s.next !in s.contexts && s.next !in s.released
  {
  }

  lemma CreateEffects(s: State, a: Action, r: State)
    requires Inv(s) && Disciplined(s, a) && a.DoCreate? && NrFree(s.cids) > 0 && Step(s, a) == Ok(r)
    ensures CreateEffect(s, a.vm, a.ex, a.retPtr, r)
  {
    if AtCap(s) {
      CreateRefused(s, a.vm, a.ex, a.retPtr, r);
    } else {
      CreateAdmits(s, a.vm, a.ex, a.retPtr);
      AdmittedRegs(s, a, r);
    }
  }

  lemma AdmittedRegs(s: State, a: Action, r: State)
    requires a.DoCreate? && Step(s, a) == Ok(r) && !AtCap(s)
    ensures r.frames != [] && r.regs == Regs(a.vm, a.ex, Some(Top(r).task), a.retPtr)
  {
  }

  lemma ResumeEffects(s: State, cid: int, r: State)
    requires Inv(s) && Disciplined(s, DoResume(cid)) && Resume(s, cid) == Ok(r)
    ensures ResumeEffect(s, cid, r)
  {
  }

  lemma DispatchContinues(s: State, fd: int, c: nat, t: nat, r: State)
    requires IsFd(fd) && EntryOf(s.table, fd).context == Some(c) && Belongs(s, c, t)
    requires InCall(s.contexts[c].ex) && Dispatch(s, fd) == Ok(r)
    ensures Continues(s, r, c, t) && r.resumable == s.resumable && r.table == Registry.Free(s.table, fd)
  {
  }

  lemma DispatchEffects(s: State, fd: int, r: State)
    requires Inv(s) && Disciplined(s, DoDispatch(fd)) && Dispatch(s, fd) == Ok(r)
    ensures DispatchEffect(s, fd, r)
  {
    match EntryOf(s.table, fd).context
    case None => IdleDispatch(s, fd);
    case Some(c) =>
      assert WaiterHolds(s, fd, c);
      assert ContextHeld(s, |s.frames|, c);
      DispatchContinues(s, fd, c, s.contexts[c].task.value, r);
  }

  lemma CloseEffects(s: State, fd: int, r: State)
    requires Inv(s) && IsFd(fd) && SocketClose(s, fd) == Ok(r)
    ensures CloseEffect(s, fd, r)
  {
    FreeAgrees(s.table, fd);
    if EntryOf(s.table, fd).context.Some? {
      assert WaiterHolds(s, fd, EntryOf(s.table, fd).context.value);
    }
  }

  lemma EnterEffect(s: State, a: Action, r: State)
    requires Inv(s) && Disciplined(s, a) && IdLeft(s, a) && Step(s, a) == Ok(r)
    requires a.DoCreate? || a.DoResume? || a.DoDispatch?
    ensures Effect(s, a, r)
  {
    match a
    case DoCreate(_, _, _) => CreateEffects(s, a, r);
    case DoResume(cid) => ResumeEffects(s, cid, r);
    case DoDispatch(fd) => DispatchEffects(s, fd, r);
  }

  lemma LeaveEffect(s: State, a: Action, r: State)
    requires Inv(s) && Disciplined(s, a) && Step(s, a) == Ok(r)
    requires a.DoYield? || a.DoWait? || a.DoEnd?
    ensures Effect(s, a, r)
  {
    match a
    case DoYield => YieldEffects(s, r);
    case DoWait(fd, req, added) => WaitEffects(s, fd, req, added, r);
    case DoEnd => EndEffects(s, r);
  }

  lemma StayEffect(s: State, a: Action, r: State)
    requires Inv(s) && Disciplined(s, a) && Step(s, a) == Ok(r)
    requires a.DoSocketClose? || a.DoForeignClose? || a.DoRun?
    ensures Effect(s, a, r)
  {
    match a
    case DoSocketClose(fd) => CloseEffects(s, fd, r);
    case DoForeignClose(fd) => UnwatchedClose(s, fd);
    case DoRun(_, _) =>
  }

  lemma StepEffect(s: State, a: Action, r: State)
    requires Inv(s) && Disciplined(s, a) && IdLeft(s, a) && Step(s, a) == Ok(r)
    ensures Effect(s, a, r)
  {
    if a.DoCreate? || a.DoResume? || a.DoDispatch? {
      EnterEffect(s, a, r);
    } else if a.DoYield? || a.DoWait? || a.DoEnd? {
      LeaveEffect(s, a, r);
    } else {
      StayEffect(s, a, r);
    }
  }

  /** The effects of the steps of a run. */
  lemma RunEffect(ss: seq<State>, acts: seq<Action>, i: nat)
    requires Run(ss, acts) && i < |acts| && IdsLeft(ss, acts, i + 1)
    ensures Effect(ss[i], acts[i], ss[i + 1])
  {
    RunStep(ss, acts, i);
    StepEffect(ss[i], acts[i], ss[i + 1]);
  }
}
